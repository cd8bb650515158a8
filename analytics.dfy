/** Read-only reports over the store: dashboard counts and sums, head counts
    by shift, role and area, the leave summary, the skill/role search with
    today's status, and shift coverage by date. Every report is open to
    Admin and Manager only. "Today" and the default ranges are parameters. */
module Analytics {
  import opened Common
  import opened Models
  import opened Decorators

  // ---------------------------------------------------------------------------
  // Date ranges

  /** Monday to Sunday of the week of `today`, whose weekday is `weekday` (Monday is 0). */
  function CurrentWeek(today: Day, weekday: int): (r: (Day, Day))
    requires 0 <= weekday <= 6
    ensures r.0 <= today <= r.1 && r.1 - r.0 == 6
    ensures r.0 == today - weekday
  {
    (today - weekday, today + (6 - weekday))
  }

  /** The `start_date`/`end_date` pair: `fallback` unless both are given (None stands
      for absent or empty), and then both must parse. */
  function ResolveRange(start: Option<DateParam>, end: Option<DateParam>, fallback: (Day, Day)): (r: Result<(Day, Day), Error>)
    ensures start.None? || end.None? ==> r == Ok(fallback)
    ensures start.Some? && end.Some? ==> (r.Ok? <==> start.value.IsoDate? && end.value.IsoDate?)
    ensures start.Some? && end.Some? && r.Ok? ==> r.value == (start.value.day, end.value.day)
    ensures r.Err? ==> r.error == InvalidDate("date")
  {
    if start.None? || end.None? then Ok(fallback)
    else if start.value.Malformed? || end.value.Malformed? then Err(InvalidDate("date"))
    else Ok((start.value.day, end.value.day))
  }

  // ---------------------------------------------------------------------------
  // Dashboard

  /** An approved entry dated within [lo, hi]. */
  predicate ApprovedIn(e: RosterEntry, lo: Day, hi: Day) {
    e.status == Approved && lo <= e.date <= hi
  }

  /** An approved leave that overlaps [lo, hi]. */
  predicate LeaveOverlaps(l: LeaveRequest, lo: Day, hi: Day) {
    l.status == Approved && l.startDate <= hi && lo <= l.endDate
  }

  /** An approved leave that lies inside [lo, hi]. */
  predicate LeaveWithin(l: LeaveRequest, lo: Day, hi: Day) {
    l.status == Approved && lo <= l.startDate && l.endDate <= hi
  }

  function ApprovedEntries(rosters: map<Id, RosterEntry>, lo: Day, hi: Day): set<Id> {
    set k | k in rosters && ApprovedIn(rosters[k], lo, hi)
  }

  function PendingEntries(rosters: map<Id, RosterEntry>, lo: Day, hi: Day): set<Id> {
    set k | k in rosters && rosters[k].status == Pending && lo <= rosters[k].date <= hi
  }

  /** The distinct employees with an approved entry in the range. */
  function OnShift(rosters: map<Id, RosterEntry>, lo: Day, hi: Day): (r: set<Id>)
    ensures forall emp :: emp in r <==> exists k :: k in ApprovedEntries(rosters, lo, hi) && rosters[k].employeeId == emp
  {
    set k | k in rosters && ApprovedIn(rosters[k], lo, hi) :: rosters[k].employeeId
  }

  /** The distinct employees with an approved leave overlapping the range. */
  function OnLeave(leaves: map<Id, LeaveRequest>, lo: Day, hi: Day): (r: set<Id>)
    ensures forall emp :: emp in r <==> exists k :: k in leaves && LeaveOverlaps(leaves[k], lo, hi) && leaves[k].employeeId == emp
  {
    set k | k in leaves && LeaveOverlaps(leaves[k], lo, hi) :: leaves[k].employeeId
  }

  function HoursOf(rosters: map<Id, RosterEntry>, k: Id): real {
    if k in rosters then rosters[k].hours else 0.0
  }

  /** SQL `sum(hours)` over the entries `ids`, 0 for none. */
  function SumHours(rosters: map<Id, RosterEntry>, ids: set<Id>): (r: real)
    ensures (forall k :: k in ids ==> HoursOf(rosters, k) >= 0.0) ==> r >= 0.0
    decreases |ids|
  {
    if ids == {} then 0.0
    else
      var m := Least(ids);
      HoursOf(rosters, m) + SumHours(rosters, ids - {m})
  }

  datatype Metrics = Metrics(
    from: Day,
    to: Day,
    totalEmployees: nat,
    employeesOnShift: nat,
    employeesOnLeave: nat,
    availableEmployees: nat,
    pendingApprovals: nat,
    totalScheduledHours: real)

  /** get_dashboard_metrics; `week` is the current week, the default range. */
  function DashboardMetrics(users: map<Id, User>, roles: map<Id, Role>, rosters: map<Id, RosterEntry>,
                            leaves: map<Id, LeaveRequest>, uid: Id,
                            start: Option<DateParam>, end: Option<DateParam>, week: (Day, Day)): (r: Result<Metrics, Error>)
    ensures StaffGate(users, roles, uid).Err? ==> r == Err(StaffGate(users, roles, uid).error)
    ensures StaffGate(users, roles, uid).Ok? ==> (r.Ok? <==> ResolveRange(start, end, week).Ok?)
    ensures StaffGate(users, roles, uid).Ok? && ResolveRange(start, end, week).Err? ==> r == Err(InvalidDate("date"))
    ensures r.Ok? ==>
              var m := r.value;
              && (m.from, m.to) == ResolveRange(start, end, week).value
              && m.totalEmployees == |users|
              && m.employeesOnShift == |OnShift(rosters, m.from, m.to)|
              && m.employeesOnLeave == |OnLeave(leaves, m.from, m.to)|
              && m.availableEmployees == Max0(m.totalEmployees - m.employeesOnShift - m.employeesOnLeave)
              && m.pendingApprovals == |PendingEntries(rosters, m.from, m.to)|
              && m.totalScheduledHours == SumHours(rosters, ApprovedEntries(rosters, m.from, m.to))
  {
    var gate := StaffGate(users, roles, uid);
    if gate.Err? then Err(gate.error)
    else
      match ResolveRange(start, end, week)
      case Err(e) => Err(e)
      case Ok((lo, hi)) =>
        var total := |users|;
        var onShift := |OnShift(rosters, lo, hi)|;
        var onLeave := |OnLeave(leaves, lo, hi)|;
        Ok(Metrics(lo, hi, total, onShift, onLeave, Max0(total - onShift - onLeave),
                   |PendingEntries(rosters, lo, hi)|, SumHours(rosters, ApprovedEntries(rosters, lo, hi))))
  }

  /** Availability is a clamped difference: never negative, never above the head count,
      and an employee both on shift and on leave is subtracted twice. */
  lemma {:induction false} AvailabilityDoubleCounts(users: map<Id, User>, roles: map<Id, Role>, rosters: map<Id, RosterEntry>,
                                                    leaves: map<Id, LeaveRequest>, uid: Id,
                                                    start: Option<DateParam>, end: Option<DateParam>, week: (Day, Day))
    requires DashboardMetrics(users, roles, rosters, leaves, uid, start, end, week).Ok?
    ensures var m := DashboardMetrics(users, roles, rosters, leaves, uid, start, end, week).value;
            var s, l := OnShift(rosters, m.from, m.to), OnLeave(leaves, m.from, m.to);
            && 0 <= m.availableEmployees <= m.totalEmployees
            && m.availableEmployees == Max0(m.totalEmployees - |s + l| - |s * l|)
  {
    var m := DashboardMetrics(users, roles, rosters, leaves, uid, start, end, week).value;
    var s, l := OnShift(rosters, m.from, m.to), OnLeave(leaves, m.from, m.to);
    assert |s + l| + |s * l| == |s| + |l|;
  }

  /** The example week: employee 7 holds an approved 8-hour entry on 2024-03-01 (day 19783)
      and approved leave from 2024-03-01 to 2024-03-03; the dashboard for that single day
      with ten employees shows 1 on shift, 1 on leave, 8 available, 0 pending, 8 hours. */
  lemma DashboardExample(users: map<Id, User>, roles: map<Id, Role>, uid: Id, approver: Id, week: (Day, Day))
    requires |users| == 10 && StaffGate(users, roles, uid).Ok?
    ensures var rosters := map[1 := RosterEntry(7, 2, 19783, 8.0, Approved, Some(approver), Some(0), "")];
            var leaves := map[2 := LeaveRequest(7, "paid", 19783, 19785, 3, "", Approved, Some(approver), Some(0))];
            DashboardMetrics(users, roles, rosters, leaves, uid, Some(IsoDate(19783)), Some(IsoDate(19783)), week)
              == Ok(Metrics(19783, 19783, 10, 1, 1, 8, 0, 8.0))
  {
    var rosters := map[1 := RosterEntry(7, 2, 19783, 8.0, Approved, Some(approver), Some(0), "")];
    var leaves := map[2 := LeaveRequest(7, "paid", 19783, 19785, 3, "", Approved, Some(approver), Some(0))];
    assert ApprovedIn(rosters[1], 19783, 19783);
    assert OnShift(rosters, 19783, 19783) == {7};
    assert LeaveOverlaps(leaves[2], 19783, 19783);
    assert OnLeave(leaves, 19783, 19783) == {7};
    assert PendingEntries(rosters, 19783, 19783) == {};
    assert ApprovedEntries(rosters, 19783, 19783) == {1};
    assert Least({1}) == 1 && {1} - {1} == {};
  }

  // ---------------------------------------------------------------------------
  // Head counts by shift, role and area

  datatype ShiftCount = ShiftCount(shiftName: string, color: string, employeeCount: nat)

  /** A labelled head count: the name of a role or area and how many employees it has. */
  datatype GroupCount = GroupCount(name: string, employeeCount: nat)

  /** The distinct employees with an approved entry for shift `s` in the range. */
  function ShiftEmployees(rosters: map<Id, RosterEntry>, s: Id, lo: Day, hi: Day): set<Id> {
    set k | k in rosters && ApprovedIn(rosters[k], lo, hi) && rosters[k].shiftId == s :: rosters[k].employeeId
  }

  /** get_employees_by_shift: one group per shift with approved entries in the range. */
  function EmployeesByShift(users: map<Id, User>, roles: map<Id, Role>, rosters: map<Id, RosterEntry>,
                            shifts: map<Id, Shift>, uid: Id,
                            start: Option<DateParam>, end: Option<DateParam>, week: (Day, Day))
    : (r: Result<map<Id, ShiftCount>, Error>)
    ensures StaffGate(users, roles, uid).Err? ==> r == Err(StaffGate(users, roles, uid).error)
    ensures StaffGate(users, roles, uid).Ok? ==> (r.Ok? <==> ResolveRange(start, end, week).Ok?)
    ensures r.Ok? ==>
              var (lo, hi) := ResolveRange(start, end, week).value;
              && (forall s :: s in r.value <==> s in shifts && ShiftEmployees(rosters, s, lo, hi) != {})
              && (forall s :: s in r.value ==>
                    r.value[s] == ShiftCount(shifts[s].name, shifts[s].color, |ShiftEmployees(rosters, s, lo, hi)|))
  {
    var gate := StaffGate(users, roles, uid);
    if gate.Err? then Err(gate.error)
    else
      match ResolveRange(start, end, week)
      case Err(e) => Err(e)
      case Ok((lo, hi)) =>
        Ok(map s | s in shifts && ShiftEmployees(rosters, s, lo, hi) != {}
                 :: ShiftCount(shifts[s].name, shifts[s].color, |ShiftEmployees(rosters, s, lo, hi)|))
  }

  /** Each shift's head count is at least one and at most the dashboard's on-shift count. */
  lemma ShiftCountsBounded(users: map<Id, User>, roles: map<Id, Role>, rosters: map<Id, RosterEntry>,
                           shifts: map<Id, Shift>, uid: Id,
                           start: Option<DateParam>, end: Option<DateParam>, week: (Day, Day), s: Id)
    requires EmployeesByShift(users, roles, rosters, shifts, uid, start, end, week).Ok?
    requires s in EmployeesByShift(users, roles, rosters, shifts, uid, start, end, week).value
    ensures var (lo, hi) := ResolveRange(start, end, week).value;
            1 <= EmployeesByShift(users, roles, rosters, shifts, uid, start, end, week).value[s].employeeCount
              <= |OnShift(rosters, lo, hi)|
  {
    var (lo, hi) := ResolveRange(start, end, week).value;
    SubsetCard(ShiftEmployees(rosters, s, lo, hi), OnShift(rosters, lo, hi));
  }

  function UsersWithRole(users: map<Id, User>, role: Id): set<Id> {
    set u | u in users && users[u].roleId == role
  }

  function UsersInArea(users: map<Id, User>, area: Id): set<Id> {
    set u | u in users && users[u].areaId == Some(area)
  }

  /** get_employees_by_role: an inner join, so roles without employees are not listed. */
  function EmployeesByRole(users: map<Id, User>, roles: map<Id, Role>, uid: Id): (r: Result<map<Id, GroupCount>, Error>)
    ensures StaffGate(users, roles, uid).Err? ==> r == Err(StaffGate(users, roles, uid).error)
    ensures StaffGate(users, roles, uid).Ok? ==> r.Ok?
    ensures r.Ok? ==> && (forall g :: g in r.value <==> g in roles && UsersWithRole(users, g) != {})
                      && (forall g :: g in r.value ==> r.value[g] == GroupCount(roles[g].name, |UsersWithRole(users, g)|))
  {
    var gate := StaffGate(users, roles, uid);
    if gate.Err? then Err(gate.error)
    else Ok(map g | g in roles && UsersWithRole(users, g) != {} :: GroupCount(roles[g].name, |UsersWithRole(users, g)|))
  }

  /** get_employees_by_area: an outer join, so every area is listed, possibly with 0. */
  function EmployeesByArea(users: map<Id, User>, roles: map<Id, Role>, areas: map<Id, Area>, uid: Id)
    : (r: Result<map<Id, GroupCount>, Error>)
    ensures StaffGate(users, roles, uid).Err? ==> r == Err(StaffGate(users, roles, uid).error)
    ensures StaffGate(users, roles, uid).Ok? ==> r.Ok?
    ensures r.Ok? ==> && r.value.Keys == areas.Keys
                      && (forall g :: g in r.value ==> r.value[g] == GroupCount(areas[g].name, |UsersInArea(users, g)|))
  {
    var gate := StaffGate(users, roles, uid);
    if gate.Err? then Err(gate.error)
    else Ok(map g | g in areas :: GroupCount(areas[g].name, |UsersInArea(users, g)|))
  }

  /** The head counts of the groups `gs` added up. */
  function CountTotal(counts: map<Id, GroupCount>, gs: set<Id>): nat
    requires gs <= counts.Keys
    decreases |gs|
  {
    if gs == {} then 0
    else
      var m := Least(gs);
      counts[m].employeeCount + CountTotal(counts, gs - {m})
  }

  /** The employees whose role is one of `gs`. */
  function HoldersOf(users: map<Id, User>, gs: set<Id>): set<Id> {
    set u | u in users && users[u].roleId in gs
  }

  /** The employees whose area is one of `gs`. */
  function MembersOf(users: map<Id, User>, gs: set<Id>): set<Id> {
    set u | u in users && users[u].areaId.Some? && users[u].areaId.value in gs
  }

  /** Adding up per-role counts over some roles counts the users holding one of those roles. */
  lemma {:induction false} RoleCountsPartition(users: map<Id, User>, counts: map<Id, GroupCount>, gs: set<Id>)
    requires gs <= counts.Keys
    requires forall g :: g in counts ==> counts[g].employeeCount == |UsersWithRole(users, g)|
    ensures CountTotal(counts, gs) == |HoldersOf(users, gs)|
    decreases |gs|
  {
    if gs != {} {
      var m := Least(gs);
      RoleCountsPartition(users, counts, gs - {m});
      HoldersSplit(users, gs, m);
    } else {
      assert HoldersOf(users, gs) == {};
    }
  }

  /** The holders of roles `gs` are those of role `m` and, apart from them, those of the rest. */
  lemma HoldersSplit(users: map<Id, User>, gs: set<Id>, m: Id)
    requires m in gs
    ensures HoldersOf(users, gs) == UsersWithRole(users, m) + HoldersOf(users, gs - {m})
    ensures UsersWithRole(users, m) * HoldersOf(users, gs - {m}) == {}
  {
    var one, rest := UsersWithRole(users, m), HoldersOf(users, gs - {m});
    forall u ensures u in HoldersOf(users, gs) <==> u in one + rest {
      if u in users && users[u].roleId in gs {
        assert users[u].roleId == m || users[u].roleId in gs - {m};
      }
    }
  }

  /** Adding up per-area counts over some areas counts the users assigned to one of them. */
  lemma {:induction false} AreaCountsPartition(users: map<Id, User>, counts: map<Id, GroupCount>, gs: set<Id>)
    requires gs <= counts.Keys
    requires forall g :: g in counts ==> counts[g].employeeCount == |UsersInArea(users, g)|
    ensures CountTotal(counts, gs) == |MembersOf(users, gs)|
    decreases |gs|
  {
    if gs != {} {
      var m := Least(gs);
      AreaCountsPartition(users, counts, gs - {m});
      MembersSplit(users, gs, m);
    } else {
      assert MembersOf(users, gs) == {};
    }
  }

  /** The members of areas `gs` are those of area `m` and, apart from them, those of the rest. */
  lemma MembersSplit(users: map<Id, User>, gs: set<Id>, m: Id)
    requires m in gs
    ensures MembersOf(users, gs) == UsersInArea(users, m) + MembersOf(users, gs - {m})
    ensures UsersInArea(users, m) * MembersOf(users, gs - {m}) == {}
  {
    var one, rest := UsersInArea(users, m), MembersOf(users, gs - {m});
    forall u ensures u in MembersOf(users, gs) <==> u in one + rest {
      if u in users && users[u].areaId.Some? && users[u].areaId.value in gs {
        assert users[u].areaId.value == m || users[u].areaId.value in gs - {m};
      }
    }
  }

  /** In a well-formed store the role counts add up to the number of employees: every
      employee has exactly one stored role. */
  lemma RoleCountsCoverEveryone(users: map<Id, User>, roles: map<Id, Role>, areas: map<Id, Area>,
                                skills: map<Id, Skill>, uid: Id)
    requires UsersReferToStore(users, roles, areas, skills)
    requires EmployeesByRole(users, roles, uid).Ok?
    ensures var counts := EmployeesByRole(users, roles, uid).value;
            CountTotal(counts, counts.Keys) == |users|
  {
    var counts := EmployeesByRole(users, roles, uid).value;
    RoleCountsPartition(users, counts, counts.Keys);
    EveryoneHoldsACountedRole(users, roles, counts.Keys);
  }

  /** When every user's role is stored, the users holding a role that has users are all users. */
  lemma EveryoneHoldsACountedRole(users: map<Id, User>, roles: map<Id, Role>, keys: set<Id>)
    requires forall u :: u in users ==> users[u].roleId in roles
    requires forall g :: g in keys <==> g in roles && UsersWithRole(users, g) != {}
    ensures HoldersOf(users, keys) == users.Keys
  {
    forall u | u in users ensures u in HoldersOf(users, keys) {
      assert u in UsersWithRole(users, users[u].roleId);
    }
  }

  /** The area counts add up to the number of employees that have an area. */
  lemma AreaCountsCoverAssigned(users: map<Id, User>, roles: map<Id, Role>, areas: map<Id, Area>,
                                skills: map<Id, Skill>, uid: Id)
    requires UsersReferToStore(users, roles, areas, skills)
    requires EmployeesByArea(users, roles, areas, uid).Ok?
    ensures var counts := EmployeesByArea(users, roles, areas, uid).value;
            CountTotal(counts, counts.Keys) == |set u | u in users && users[u].areaId.Some?|
  {
    var counts := EmployeesByArea(users, roles, areas, uid).value;
    AreaCountsPartition(users, counts, counts.Keys);
    assert MembersOf(users, counts.Keys) == (set u | u in users && users[u].areaId.Some?) by {
      forall u | u in users && users[u].areaId.Some? ensures u in MembersOf(users, counts.Keys) {
        assert users[u].areaId.value in areas;
      }
    }
  }

  // ---------------------------------------------------------------------------
  // Leave summary

  datatype LeaveTypeSummary = LeaveTypeSummary(requestCount: nat, totalDays: int)

  function LeavesOfType(leaves: map<Id, LeaveRequest>, t: string, lo: Day, hi: Day): set<Id> {
    set k | k in leaves && LeaveWithin(leaves[k], lo, hi) && leaves[k].leaveType == t
  }

  function DaysOf(leaves: map<Id, LeaveRequest>, k: Id): int {
    if k in leaves then leaves[k].days else 0
  }

  /** SQL `sum(days)` over the leave requests `ids`. */
  function SumDays(leaves: map<Id, LeaveRequest>, ids: set<Id>): (r: int)
    ensures (forall k :: k in ids ==> DaysOf(leaves, k) >= 0) ==> r >= 0
    decreases |ids|
  {
    if ids == {} then 0
    else
      var m := Least(ids);
      DaysOf(leaves, m) + SumDays(leaves, ids - {m})
  }

  /** get_leave_summary; the default range runs from 1 January (`yearStart`) to `today`. */
  function LeaveSummary(users: map<Id, User>, roles: map<Id, Role>, leaves: map<Id, LeaveRequest>, uid: Id,
                        start: Option<DateParam>, end: Option<DateParam>, yearStart: Day, today: Day)
    : (r: Result<map<string, LeaveTypeSummary>, Error>)
    ensures StaffGate(users, roles, uid).Err? ==> r == Err(StaffGate(users, roles, uid).error)
    ensures StaffGate(users, roles, uid).Ok? ==> (r.Ok? <==> ResolveRange(start, end, (yearStart, today)).Ok?)
    ensures r.Ok? ==>
              var (lo, hi) := ResolveRange(start, end, (yearStart, today)).value;
              && (forall t :: t in r.value <==> LeavesOfType(leaves, t, lo, hi) != {})
              && (forall t :: t in r.value ==>
                    r.value[t] == LeaveTypeSummary(|LeavesOfType(leaves, t, lo, hi)|, SumDays(leaves, LeavesOfType(leaves, t, lo, hi))))
  {
    var gate := StaffGate(users, roles, uid);
    if gate.Err? then Err(gate.error)
    else
      match ResolveRange(start, end, (yearStart, today))
      case Err(e) => Err(e)
      case Ok((lo, hi)) =>
        var types := set k | k in leaves && LeaveWithin(leaves[k], lo, hi) :: leaves[k].leaveType;
        assert forall t :: t in types <==> LeavesOfType(leaves, t, lo, hi) != {} by {
          forall t | LeavesOfType(leaves, t, lo, hi) != {} ensures t in types {
            HasElement(LeavesOfType(leaves, t, lo, hi));
            var k :| k in LeavesOfType(leaves, t, lo, hi);
          }
          forall t | t in types ensures LeavesOfType(leaves, t, lo, hi) != {} {
            var k :| k in leaves && LeaveWithin(leaves[k], lo, hi) && leaves[k].leaveType == t;
            assert k in LeavesOfType(leaves, t, lo, hi);
          }
        }
        Ok(map t | t in types :: LeaveTypeSummary(|LeavesOfType(leaves, t, lo, hi)|, SumDays(leaves, LeavesOfType(leaves, t, lo, hi))))
  }

  /** The summary needs containment, the dashboard only overlap: an employee whose
      (well-formed) leave is summarised for a range is on leave in the dashboard for it. */
  lemma SummarisedLeaveIsOnLeave(leaves: map<Id, LeaveRequest>, t: string, lo: Day, hi: Day, k: Id)
    requires k in LeavesOfType(leaves, t, lo, hi)
    requires leaves[k].startDate <= leaves[k].endDate
    ensures leaves[k].employeeId in OnLeave(leaves, lo, hi)
  {
    assert LeaveOverlaps(leaves[k], lo, hi);
  }

  // ---------------------------------------------------------------------------
  // Skill and role search

  /** Today's status of an employee: on leave wins over on shift. */
  datatype TodayStatus = Available | OnShiftToday | OnLeaveToday(leaveType: string)

  /** The `shift_status` text. */
  function TodayStatusText(s: TodayStatus): (r: string)
    ensures s.Available? <==> r == "available"
    ensures s.OnShiftToday? <==> r == "on_shift"
    ensures s.OnLeaveToday? ==> r == "on_" + s.leaveType + "_leave"
  {
    match s
    case Available => "available"
    case OnShiftToday => "on_shift"
    case OnLeaveToday(t) =>
      var r := "on_" + t + "_leave";
      assert r[0] == 'o' && |r| > |"on_shift"|;
      r
  }

  /** Distinct statuses give distinct texts; in particular the leave type can be read back. */
  lemma {:induction false} TodayStatusTextInjective(a: TodayStatus, b: TodayStatus)
    ensures TodayStatusText(a) == TodayStatusText(b) <==> a == b
  {
    if a.OnLeaveToday? && b.OnLeaveToday? && TodayStatusText(a) == TodayStatusText(b) {
      var r := TodayStatusText(a);
      assert a.leaveType == r[3..|r| - 6];
      assert b.leaveType == r[3..|r| - 6];
    }
  }

  datatype SearchHit = SearchHit(employee: Id, status: TodayStatus, todayShift: Option<Id>)

  /** The employee holds a stored skill whose name matches `%pattern%` ignoring case. */
  predicate SkillMatches(users: map<Id, User>, skills: map<Id, Skill>, u: Id, pattern: string)
    requires u in users
  {
    exists s :: s in users[u].skills && s in skills && ILike(skills[s].name, pattern)
  }

  /** The employee's role name matches `%pattern%` ignoring case. */
  predicate RoleMatches(users: map<Id, User>, roles: map<Id, Role>, u: Id, pattern: string)
    requires u in users
  {
    users[u].roleId in roles && ILike(roles[users[u].roleId].name, pattern)
  }

  /** The search criteria, ANDed; None stands for a parameter that is absent or empty. */
  predicate SearchMatches(users: map<Id, User>, roles: map<Id, Role>, skills: map<Id, Skill>, u: Id,
                          skill: Option<string>, role: Option<string>)
    requires u in users
  {
    (skill.Some? ==> SkillMatches(users, skills, u, skill.value)) && (role.Some? ==> RoleMatches(users, roles, u, role.value))
  }

  function TodayEntries(rosters: map<Id, RosterEntry>, emp: Id, today: Day): set<Id> {
    set k | k in rosters && rosters[k].employeeId == emp && rosters[k].date == today && rosters[k].status == Approved
  }

  function TodayLeaves(leaves: map<Id, LeaveRequest>, emp: Id, today: Day): set<Id> {
    set k | k in leaves && leaves[k].employeeId == emp && leaves[k].startDate <= today <= leaves[k].endDate
                        && leaves[k].status == Approved
  }

  /** `.first()` of a query: the lowest id, when there is one. */
  function FirstId(s: set<Id>): (r: Option<Id>)
    ensures r.None? <==> s == {}
    ensures r.Some? ==> IsLeast(r.value, s)
  {
    if s == {} then None else Some(Least(s))
  }

  /** The employee's status today: the type of an approved leave covering today, else
      on shift when an approved entry is dated today, else available. */
  function StatusToday(rosters: map<Id, RosterEntry>, leaves: map<Id, LeaveRequest>, emp: Id, today: Day): (s: TodayStatus)
    ensures s.OnLeaveToday? <==> TodayLeaves(leaves, emp, today) != {}
    ensures s.OnLeaveToday? ==> exists k :: k in TodayLeaves(leaves, emp, today) && leaves[k].leaveType == s.leaveType
    ensures s == OnShiftToday <==> TodayLeaves(leaves, emp, today) == {} && TodayEntries(rosters, emp, today) != {}
    ensures s == Available <==> TodayLeaves(leaves, emp, today) == {} && TodayEntries(rosters, emp, today) == {}
  {
    var status := if TodayEntries(rosters, emp, today) != {} then OnShiftToday else Available;
    match FirstId(TodayLeaves(leaves, emp, today))
    case Some(k) => OnLeaveToday(leaves[k].leaveType)
    case None => status
  }

  /** The hit for one employee, as the loop body builds it. */
  function HitFor(rosters: map<Id, RosterEntry>, leaves: map<Id, LeaveRequest>, emp: Id, today: Day): SearchHit {
    SearchHit(emp, StatusToday(rosters, leaves, emp, today), FirstId(TodayEntries(rosters, emp, today)))
  }

  /** The employees the search criteria select. */
  function Matching(users: map<Id, User>, roles: map<Id, Role>, skills: map<Id, Skill>,
                    skill: Option<string>, role: Option<string>): (r: set<Id>)
    ensures forall u :: u in r <==> u in users && SearchMatches(users, roles, skills, u, skill, role)
  {
    set u | u in users && SearchMatches(users, roles, skills, u, skill, role)
  }

  /** skill_search: the matching employees in id order (the joins do not repeat an
      employee), each with today's status and today's approved entry. */
  method SkillSearch(db: Database, uid: Id, skill: Option<string>, role: Option<string>, today: Day)
    returns (r: Result<seq<SearchHit>, Error>)
    ensures StaffGate(db.users, db.roles, uid).Err? ==> r == Err(StaffGate(db.users, db.roles, uid).error)
    ensures StaffGate(db.users, db.roles, uid).Ok? && skill.None? && role.None? ==> r == Err(CriteriaMissing)
    ensures r.Ok? <==> StaffGate(db.users, db.roles, uid).Ok? && (skill.Some? || role.Some?)
    ensures r.Ok? ==> forall u :: (exists i :: 0 <= i < |r.value| && r.value[i].employee == u)
                                 <==> u in Matching(db.users, db.roles, db.skills, skill, role)
    ensures r.Ok? ==> forall i, j :: 0 <= i < j < |r.value| ==> r.value[i].employee < r.value[j].employee
    ensures r.Ok? ==> forall i :: 0 <= i < |r.value| ==> r.value[i] == HitFor(db.rosters, db.leaves, r.value[i].employee, today)
  {
    var gate := StaffGate(db.users, db.roles, uid);
    if gate.Err? {
      return Err(gate.error);
    }
    if skill.None? && role.None? {
      return Err(CriteriaMissing);
    }
    var employees := SortedKeys(Matching(db.users, db.roles, db.skills, skill, role));
    SortedKeysIncreasing(Matching(db.users, db.roles, db.skills, skill, role));
    var hits := TodayHits(db.rosters, db.leaves, employees, today);
    r := Ok(hits);
  }

  /** The loop of skill_search: one hit per employee, in the given order. */
  method TodayHits(rosters: map<Id, RosterEntry>, leaves: map<Id, LeaveRequest>, employees: seq<Id>, today: Day)
    returns (result: seq<SearchHit>)
    ensures |result| == |employees|
    ensures forall j :: 0 <= j < |result| ==> result[j] == HitFor(rosters, leaves, employees[j], today)
  {
    result := [];
    var i := 0;
    while i < |employees|
      invariant 0 <= i <= |employees|
      invariant |result| == i
      invariant forall j :: 0 <= j < i ==> result[j] == HitFor(rosters, leaves, employees[j], today)
    {
      var emp := employees[i];
      var todayRoster := FirstId(TodayEntries(rosters, emp, today));
      var status := if todayRoster.Some? then OnShiftToday else Available;
      var onLeave := FirstId(TodayLeaves(leaves, emp, today));
      if onLeave.Some? {
        status := OnLeaveToday(leaves[onLeave.value].leaveType);
      }
      assert status == StatusToday(rosters, leaves, emp, today);
      result := result + [SearchHit(emp, status, todayRoster)];
      i := i + 1;
    }
  }

  /** Leave overrides shift: an employee on approved leave today is reported on leave
      even with an approved entry for today. */
  lemma {:induction false} LeaveOverridesShift(rosters: map<Id, RosterEntry>, leaves: map<Id, LeaveRequest>,
                                               emp: Id, today: Day, k: Id, l: Id)
    requires k in rosters && rosters[k].employeeId == emp && rosters[k].date == today && rosters[k].status == Approved
    requires l in leaves && leaves[l].employeeId == emp && leaves[l].startDate <= today <= leaves[l].endDate
    requires leaves[l].status == Approved
    ensures StatusToday(rosters, leaves, emp, today).OnLeaveToday?
    ensures HitFor(rosters, leaves, emp, today).todayShift.Some?
  {
    assert l in TodayLeaves(leaves, emp, today);
    assert k in TodayEntries(rosters, emp, today);
  }

  // ---------------------------------------------------------------------------
  // Shift coverage

  /** One row of the coverage query: a (date, shift) group of approved entries. */
  datatype CoverageRow = CoverageRow(date: Day, shiftId: Id, shiftName: string, color: string,
                                     scheduledCount: nat, totalHours: real)

  datatype ShiftCoverage = ShiftCoverage(shiftName: string, color: string, scheduledCount: nat, totalHours: real)

  /** The `coverage_by_date` dict: its keys in insertion order, and the list under each key. */
  datatype Coverage = Coverage(dates: seq<Day>, byDate: map<Day, seq<ShiftCoverage>>)

  /** An approved entry in the range whose shift is stored (the query joins shifts). */
  predicate Covered(rosters: map<Id, RosterEntry>, shifts: map<Id, Shift>, k: Id, lo: Day, hi: Day) {
    k in rosters && ApprovedIn(rosters[k], lo, hi) && rosters[k].shiftId in shifts
  }

  function CoveredDays(rosters: map<Id, RosterEntry>, shifts: map<Id, Shift>, lo: Day, hi: Day): set<Day> {
    set k | k in rosters && Covered(rosters, shifts, k, lo, hi) :: rosters[k].date
  }

  function ShiftsOn(rosters: map<Id, RosterEntry>, shifts: map<Id, Shift>, lo: Day, hi: Day, d: Day): (r: set<Id>)
    ensures r <= shifts.Keys
  {
    set k | k in rosters && Covered(rosters, shifts, k, lo, hi) && rosters[k].date == d :: rosters[k].shiftId
  }

  /** The entries of one (date, shift) group. */
  function Cell(rosters: map<Id, RosterEntry>, shifts: map<Id, Shift>, lo: Day, hi: Day, d: Day, s: Id): set<Id> {
    set k | k in rosters && Covered(rosters, shifts, k, lo, hi) && rosters[k].date == d && rosters[k].shiftId == s
  }

  /** A row describes its group: the name and colour of its shift, and the number and the
      total hours of the group's entries. */
  predicate RowOfGroup(rosters: map<Id, RosterEntry>, shifts: map<Id, Shift>, lo: Day, hi: Day, row: CoverageRow) {
    var cell := Cell(rosters, shifts, lo, hi, row.date, row.shiftId);
    && row.shiftId in shifts
    && row.shiftName == shifts[row.shiftId].name && row.color == shifts[row.shiftId].color
    && row.scheduledCount == |cell| && row.totalHours == SumHours(rosters, cell)
  }

  /** A shift that occurs on a date has a non-empty group there. */
  lemma ShiftOnHasEntries(rosters: map<Id, RosterEntry>, shifts: map<Id, Shift>, lo: Day, hi: Day, d: Day, s: Id)
    requires s in ShiftsOn(rosters, shifts, lo, hi, d)
    ensures |Cell(rosters, shifts, lo, hi, d, s)| > 0
  {
    var k :| k in rosters && Covered(rosters, shifts, k, lo, hi) && rosters[k].date == d && rosters[k].shiftId == s;
    assert k in Cell(rosters, shifts, lo, hi, d, s);
  }

  function RowsForShifts(rosters: map<Id, RosterEntry>, shifts: map<Id, Shift>, lo: Day, hi: Day, d: Day, ss: seq<Id>)
    : (r: seq<CoverageRow>)
    requires forall i :: 0 <= i < |ss| ==> ss[i] in shifts
    ensures |r| == |ss|
    ensures forall i :: 0 <= i < |r| ==> r[i].date == d && r[i].shiftId == ss[i] && RowOfGroup(rosters, shifts, lo, hi, r[i])
    decreases |ss|
  {
    if ss == [] then []
    else
      var s := ss[0];
      var cell := Cell(rosters, shifts, lo, hi, d, s);
      [CoverageRow(d, s, shifts[s].name, shifts[s].color, |cell|, SumHours(rosters, cell))]
        + RowsForShifts(rosters, shifts, lo, hi, d, ss[1..])
  }

  /** The rows of one date, by shift id. */
  function DayRows(rosters: map<Id, RosterEntry>, shifts: map<Id, Shift>, lo: Day, hi: Day, d: Day): (r: seq<CoverageRow>)
    ensures forall i :: 0 <= i < |r| ==> r[i].date == d && RowOfGroup(rosters, shifts, lo, hi, r[i])
  {
    RowsForShifts(rosters, shifts, lo, hi, d, SortedKeys(ShiftsOn(rosters, shifts, lo, hi, d)))
  }

  function RowsForDays(rosters: map<Id, RosterEntry>, shifts: map<Id, Shift>, lo: Day, hi: Day, ds: seq<Day>)
    : (r: seq<CoverageRow>)
    ensures forall i :: 0 <= i < |r| ==> r[i].date in ds
    ensures Increasing(ds) && ds != [] ==> forall i :: 0 <= i < |r| ==> ds[0] <= r[i].date
    decreases |ds|
  {
    if ds == [] then []
    else
      var head := DayRows(rosters, shifts, lo, hi, ds[0]);
      var tail := RowsForDays(rosters, shifts, lo, hi, ds[1..]);
      assert forall i :: 0 <= i < |tail| ==> tail[i].date in ds[1..];
      assert Increasing(ds) && |ds| > 1 ==> Increasing(ds[1..]) && ds[0] < ds[1..][0];
      head + tail
  }

  /** Rows whose dates never decrease. */
  predicate DateOrdered(rows: seq<CoverageRow>) {
    forall i, j :: 0 <= i < j < |rows| ==> rows[i].date <= rows[j].date
  }

  /** Rows built for ascending dates come in date order. */
  lemma {:induction false} RowsForDaysSorted(rosters: map<Id, RosterEntry>, shifts: map<Id, Shift>, lo: Day, hi: Day, ds: seq<Day>)
    requires Increasing(ds)
    ensures DateOrdered(RowsForDays(rosters, shifts, lo, hi, ds))
    decreases |ds|
  {
    if ds != [] {
      var head := DayRows(rosters, shifts, lo, hi, ds[0]);
      var tail := RowsForDays(rosters, shifts, lo, hi, ds[1..]);
      assert RowsForDays(rosters, shifts, lo, hi, ds) == head + tail;
      assert Increasing(ds[1..]);
      RowsForDaysSorted(rosters, shifts, lo, hi, ds[1..]);
      assert ds[1..] != [] ==> ds[1..][0] == ds[1] && ds[0] < ds[1];
      ConcatOrdered(head, tail, ds[0]);
    }
  }

  /** Rows of one date followed by date-ordered rows of later dates are date-ordered. */
  lemma ConcatOrdered(head: seq<CoverageRow>, tail: seq<CoverageRow>, d: Day)
    requires forall i :: 0 <= i < |head| ==> head[i].date == d
    requires forall i :: 0 <= i < |tail| ==> d < tail[i].date
    requires DateOrdered(tail)
    ensures DateOrdered(head + tail)
  {
    var r := head + tail;
    forall i, j | 0 <= i < j < |r| ensures r[i].date <= r[j].date {
      if j < |head| {
        assert r[i] == head[i] && r[j] == head[j];
      } else if i < |head| {
        assert r[i] == head[i] && r[j] == tail[j - |head|];
      } else {
        assert r[i] == tail[i - |head|] && r[j] == tail[j - |head|];
      }
    }
  }

  /** The coverage query: one row per (date, shift) group, by date and then shift id. */
  function CoverageRows(rosters: map<Id, RosterEntry>, shifts: map<Id, Shift>, lo: Day, hi: Day): (r: seq<CoverageRow>)
    ensures DateOrdered(r)
    ensures forall i :: 0 <= i < |r| ==> r[i].date in CoveredDays(rosters, shifts, lo, hi)
  {
    var ds := SortedKeys(CoveredDays(rosters, shifts, lo, hi));
    SortedKeysIncreasing(CoveredDays(rosters, shifts, lo, hi));
    RowsForDaysSorted(rosters, shifts, lo, hi, ds);
    var r := RowsForDays(rosters, shifts, lo, hi, ds);
    forall i | 0 <= i < |r| ensures r[i].date in CoveredDays(rosters, shifts, lo, hi) {
      assert r[i].date in ds;
    }
    r
  }

  /** The rows of one date are its groups: one row per shift that occurs that day, in
      ascending shift id. */
  lemma DayRowsGroups(rosters: map<Id, RosterEntry>, shifts: map<Id, Shift>, lo: Day, hi: Day, d: Day)
    ensures var r := DayRows(rosters, shifts, lo, hi, d);
            && (forall i :: 0 <= i < |r| ==> r[i].shiftId in ShiftsOn(rosters, shifts, lo, hi, d))
            && (forall s :: s in ShiftsOn(rosters, shifts, lo, hi, d) ==> exists i :: 0 <= i < |r| && r[i].shiftId == s)
            && (forall i, j :: 0 <= i < j < |r| ==> r[i].shiftId < r[j].shiftId)
  {
    var on := ShiftsOn(rosters, shifts, lo, hi, d);
    var ss := SortedKeys(on);
    SortedKeysIncreasing(on);
    var r := DayRows(rosters, shifts, lo, hi, d);
    assert forall i :: 0 <= i < |r| ==> r[i].shiftId == ss[i];
    assert forall i :: 0 <= i < |ss| ==> ss[i] in on;
    forall s | s in on ensures exists i :: 0 <= i < |r| && r[i].shiftId == s {
      var i :| 0 <= i < |ss| && ss[i] == s;
      assert r[i].shiftId == s;
    }
  }

  /** Each row describes a group of its date. */
  predicate GroupRows(rosters: map<Id, RosterEntry>, shifts: map<Id, Shift>, lo: Day, hi: Day, r: seq<CoverageRow>) {
    forall i :: 0 <= i < |r| ==>
      r[i].shiftId in ShiftsOn(rosters, shifts, lo, hi, r[i].date) && RowOfGroup(rosters, shifts, lo, hi, r[i])
  }

  /** Every group on the dates `ds` has a row. */
  predicate RowsCoverDays(rosters: map<Id, RosterEntry>, shifts: map<Id, Shift>, lo: Day, hi: Day, ds: seq<Day>,
                          r: seq<CoverageRow>) {
    forall d, s :: d in ds && s in ShiftsOn(rosters, shifts, lo, hi, d) ==> HasRow(r, d, s)
  }

  predicate HasRow(r: seq<CoverageRow>, d: Day, s: Id) {
    exists i :: 0 <= i < |r| && r[i].date == d && r[i].shiftId == s
  }

  /** No two rows share a (date, shift) pair. */
  predicate PairsDistinct(r: seq<CoverageRow>) {
    forall i, j :: 0 <= i < j < |r| ==> r[i].date != r[j].date || r[i].shiftId != r[j].shiftId
  }

  lemma GroupRowsConcat(rosters: map<Id, RosterEntry>, shifts: map<Id, Shift>, lo: Day, hi: Day,
                        a: seq<CoverageRow>, b: seq<CoverageRow>)
    requires GroupRows(rosters, shifts, lo, hi, a) && GroupRows(rosters, shifts, lo, hi, b)
    ensures GroupRows(rosters, shifts, lo, hi, a + b)
  {
    var r := a + b;
    forall i | 0 <= i < |r|
      ensures r[i].shiftId in ShiftsOn(rosters, shifts, lo, hi, r[i].date) && RowOfGroup(rosters, shifts, lo, hi, r[i])
    {
      if i < |a| { assert r[i] == a[i]; } else { assert r[i] == b[i - |a|]; }
    }
  }

  /** Rows of one date followed by rows of other dates keep their pairs distinct. */
  lemma PairsDistinctConcat(a: seq<CoverageRow>, b: seq<CoverageRow>, d: Day)
    requires forall i :: 0 <= i < |a| ==> a[i].date == d
    requires forall i :: 0 <= i < |b| ==> b[i].date != d
    requires PairsDistinct(a) && PairsDistinct(b)
    ensures PairsDistinct(a + b)
  {
    var r := a + b;
    forall i, j | 0 <= i < j < |r| ensures r[i].date != r[j].date || r[i].shiftId != r[j].shiftId {
      if j < |a| {
        assert r[i] == a[i] && r[j] == a[j];
      } else if i < |a| {
        assert r[i] == a[i] && r[j] == b[j - |a|];
      } else {
        assert r[i] == b[i - |a|] && r[j] == b[j - |a|];
      }
    }
  }

  lemma HasRowConcat(a: seq<CoverageRow>, b: seq<CoverageRow>, d: Day, s: Id)
    requires HasRow(a, d, s) || HasRow(b, d, s)
    ensures HasRow(a + b, d, s)
  {
    if HasRow(a, d, s) {
      var i :| 0 <= i < |a| && a[i].date == d && a[i].shiftId == s;
      assert (a + b)[i] == a[i];
    } else {
      var i :| 0 <= i < |b| && b[i].date == d && b[i].shiftId == s;
      assert (a + b)[|a| + i] == b[i];
    }
  }

  /** The rows of one date describe its groups, one row for each, pairs distinct. */
  lemma DayRowsFacts(rosters: map<Id, RosterEntry>, shifts: map<Id, Shift>, lo: Day, hi: Day, d: Day)
    ensures GroupRows(rosters, shifts, lo, hi, DayRows(rosters, shifts, lo, hi, d))
    ensures PairsDistinct(DayRows(rosters, shifts, lo, hi, d))
    ensures forall s :: s in ShiftsOn(rosters, shifts, lo, hi, d) ==> HasRow(DayRows(rosters, shifts, lo, hi, d), d, s)
  {
    var r := DayRows(rosters, shifts, lo, hi, d);
    DayRowsGroups(rosters, shifts, lo, hi, d);
    forall s | s in ShiftsOn(rosters, shifts, lo, hi, d) ensures HasRow(r, d, s) {
      var i :| 0 <= i < |r| && r[i].shiftId == s;
      assert r[i].date == d;
    }
  }

  /** The rows built for ascending dates: each describes a group of that date, every group
      of those dates has a row, and no (date, shift) pair has two. */
  lemma {:induction false} RowsForDaysGroups(rosters: map<Id, RosterEntry>, shifts: map<Id, Shift>, lo: Day, hi: Day,
                                             ds: seq<Day>)
    requires Increasing(ds)
    ensures GroupRows(rosters, shifts, lo, hi, RowsForDays(rosters, shifts, lo, hi, ds))
    ensures RowsCoverDays(rosters, shifts, lo, hi, ds, RowsForDays(rosters, shifts, lo, hi, ds))
    ensures PairsDistinct(RowsForDays(rosters, shifts, lo, hi, ds))
    decreases |ds|
  {
    if ds != [] {
      var head := DayRows(rosters, shifts, lo, hi, ds[0]);
      var tail := RowsForDays(rosters, shifts, lo, hi, ds[1..]);
      var r := RowsForDays(rosters, shifts, lo, hi, ds);
      assert r == head + tail;
      assert Increasing(ds[1..]);
      RowsForDaysGroups(rosters, shifts, lo, hi, ds[1..]);
      DayRowsFacts(rosters, shifts, lo, hi, ds[0]);
      GroupRowsConcat(rosters, shifts, lo, hi, head, tail);
      assert forall i :: 0 <= i < |tail| ==> tail[i].date != ds[0] by {
        assert ds[1..] != [] ==> ds[1..][0] == ds[1] && ds[0] < ds[1];
      }
      PairsDistinctConcat(head, tail, ds[0]);
      forall d, s | d in ds && s in ShiftsOn(rosters, shifts, lo, hi, d) ensures HasRow(r, d, s) {
        if d != ds[0] {
          assert d in ds[1..] by {
            assert ds == [ds[0]] + ds[1..];
          }
        }
        HasRowConcat(head, tail, d, s);
      }
    }
  }

  /** The coverage query groups the covered entries by (date, shift): every row describes a
      non-empty group, every covered entry's group has a row, and no group has two. */
  lemma CoverageGroups(rosters: map<Id, RosterEntry>, shifts: map<Id, Shift>, lo: Day, hi: Day)
    ensures GroupRows(rosters, shifts, lo, hi, CoverageRows(rosters, shifts, lo, hi))
    ensures forall i :: 0 <= i < |CoverageRows(rosters, shifts, lo, hi)| ==> CoverageRows(rosters, shifts, lo, hi)[i].scheduledCount > 0
    ensures forall k ::
              Covered(rosters, shifts, k, lo, hi) ==> HasRow(CoverageRows(rosters, shifts, lo, hi), rosters[k].date, rosters[k].shiftId)
    ensures PairsDistinct(CoverageRows(rosters, shifts, lo, hi))
  {
    var days := CoveredDays(rosters, shifts, lo, hi);
    var ds := SortedKeys(days);
    SortedKeysIncreasing(days);
    RowsForDaysGroups(rosters, shifts, lo, hi, ds);
    var r := CoverageRows(rosters, shifts, lo, hi);
    assert r == RowsForDays(rosters, shifts, lo, hi, ds);
    forall i | 0 <= i < |r| ensures r[i].scheduledCount > 0 {
      ShiftOnHasEntries(rosters, shifts, lo, hi, r[i].date, r[i].shiftId);
    }
    forall k | Covered(rosters, shifts, k, lo, hi) ensures HasRow(r, rosters[k].date, rosters[k].shiftId) {
      assert rosters[k].date in days;
      assert rosters[k].shiftId in ShiftsOn(rosters, shifts, lo, hi, rosters[k].date);
    }
  }

  /** The item a row contributes to the dict. */
  function Item(row: CoverageRow): (r: ShiftCoverage)
    ensures r.shiftName == row.shiftName && r.color == row.color
    ensures r.scheduledCount == row.scheduledCount && r.totalHours == row.totalHours
  {
    ShiftCoverage(row.shiftName, row.color, row.scheduledCount, row.totalHours)
  }

  /** The items of the rows dated `d`, in row order. */
  function ItemsOn(rows: seq<CoverageRow>, d: Day): seq<ShiftCoverage>
    decreases |rows|
  {
    if rows == [] then []
    else (if rows[0].date == d then [Item(rows[0])] else []) + ItemsOn(rows[1..], d)
  }

  lemma {:induction false} ItemsOnAppend(rows: seq<CoverageRow>, row: CoverageRow, d: Day)
    ensures ItemsOn(rows + [row], d) == ItemsOn(rows, d) + (if row.date == d then [Item(row)] else [])
    decreases |rows|
  {
    if rows != [] {
      assert (rows + [row])[1..] == rows[1..] + [row];
      ItemsOnAppend(rows[1..], row, d);
    }
  }

  /** The items of `rows`, in order. */
  function ItemsOf(rows: seq<CoverageRow>): (r: seq<ShiftCoverage>)
    ensures |r| == |rows| && forall i :: 0 <= i < |r| ==> r[i] == Item(rows[i])
    decreases |rows|
  {
    if rows == [] then [] else [Item(rows[0])] + ItemsOf(rows[1..])
  }

  lemma {:induction false} ItemsOnConcat(a: seq<CoverageRow>, b: seq<CoverageRow>, d: Day)
    ensures ItemsOn(a + b, d) == ItemsOn(a, d) + ItemsOn(b, d)
    decreases |a|
  {
    if a != [] {
      assert (a + b)[0] == a[0] && (a + b)[1..] == a[1..] + b;
      ItemsOnConcat(a[1..], b, d);
    } else {
      assert a + b == b;
    }
  }

  /** Rows that all carry date `e` contribute all their items to `e` and none elsewhere. */
  lemma {:induction false} ItemsOnOneDay(rows: seq<CoverageRow>, e: Day, d: Day)
    requires forall i :: 0 <= i < |rows| ==> rows[i].date == e
    ensures ItemsOn(rows, d) == if e == d then ItemsOf(rows) else []
    decreases |rows|
  {
    if rows != [] {
      ItemsOnOneDay(rows[1..], e, d);
    }
  }

  /** In the rows built for ascending dates, the items of date `d` are those of its own rows. */
  lemma {:induction false} DayOfRowsForDays(rosters: map<Id, RosterEntry>, shifts: map<Id, Shift>, lo: Day, hi: Day,
                                            ds: seq<Day>, d: Day)
    requires Increasing(ds)
    ensures ItemsOn(RowsForDays(rosters, shifts, lo, hi, ds), d)
            == if d in ds then ItemsOf(DayRows(rosters, shifts, lo, hi, d)) else []
    decreases |ds|
  {
    if ds != [] {
      var head := DayRows(rosters, shifts, lo, hi, ds[0]);
      var tail := RowsForDays(rosters, shifts, lo, hi, ds[1..]);
      var all := RowsForDays(rosters, shifts, lo, hi, ds);
      assert all == head + tail;
      ItemsOnConcat(head, tail, d);
      ItemsOnOneDay(head, ds[0], d);
      assert Increasing(ds[1..]);
      DayOfRowsForDays(rosters, shifts, lo, hi, ds[1..], d);
      assert ds == [ds[0]] + ds[1..];
      if d == ds[0] {
        assert d !in ds[1..] by {
          forall i | 0 <= i < |ds[1..]| ensures ds[1..][i] != ds[0] {
            assert ds[1..][i] == ds[i + 1];
          }
        }
        assert ItemsOn(all, d) == ItemsOf(head) + [];
      } else {
        assert d in ds <==> d in ds[1..];
        assert ItemsOn(all, d) == [] + ItemsOn(tail, d);
      }
    }
  }

  /** One turn of the loop that organises the rows by date. */
  function AddRow(c: Coverage, row: CoverageRow): Coverage {
    var item := Item(row);
    if row.date in c.byDate then Coverage(c.dates, c.byDate[row.date := c.byDate[row.date] + [item]])
    else Coverage(c.dates + [row.date], c.byDate[row.date := [item]])
  }

  function Organize(rows: seq<CoverageRow>): Coverage
    decreases |rows|
  {
    if rows == [] then Coverage([], map[])
    else AddRow(Organize(rows[..|rows| - 1]), rows[|rows| - 1])
  }

  /** The dict's keys are exactly the row dates, each inserted once; rows that come sorted
      by date give keys in ascending order. */
  lemma {:induction false} OrganizeKeys(rows: seq<CoverageRow>)
    ensures forall d :: d in Organize(rows).byDate <==> exists i :: 0 <= i < |rows| && rows[i].date == d
    ensures forall d :: d in Organize(rows).dates <==> d in Organize(rows).byDate
    ensures DateOrdered(rows) ==> Increasing(Organize(rows).dates)
    ensures forall i, j :: 0 <= i < j < |Organize(rows).dates| ==> Organize(rows).dates[i] != Organize(rows).dates[j]
    decreases |rows|
  {
    if rows != [] {
      var prefix := rows[..|rows| - 1];
      var last := rows[|rows| - 1];
      OrganizeKeys(prefix);
      var p := Organize(prefix);
      var c := Organize(rows);
      assert c == AddRow(p, last);
      assert forall i :: 0 <= i < |prefix| ==> prefix[i] == rows[i];
      forall d ensures d in c.byDate <==> exists i :: 0 <= i < |rows| && rows[i].date == d {
        if d in p.byDate {
          var i :| 0 <= i < |prefix| && prefix[i].date == d;
          assert rows[i].date == d;
        }
      }
      if DateOrdered(rows) {
        assert DateOrdered(prefix) by {
          forall i, j | 0 <= i < j < |prefix| ensures prefix[i].date <= prefix[j].date {
            assert prefix[i] == rows[i] && prefix[j] == rows[j];
          }
        }
        if last.date !in p.byDate {
          forall i | 0 <= i < |p.dates| ensures p.dates[i] < last.date {
            assert p.dates[i] in p.dates;
            assert p.dates[i] in p.byDate;
            var j :| 0 <= j < |prefix| && prefix[j].date == p.dates[i];
            assert rows[j] == prefix[j];
          }
        }
      }
    }
  }

  /** Each date's list holds the items of exactly the rows of that date, in row order. */
  lemma {:induction false} OrganizeFilesByDate(rows: seq<CoverageRow>)
    ensures forall d :: d in Organize(rows).byDate ==> Organize(rows).byDate[d] == ItemsOn(rows, d)
    ensures forall d :: d !in Organize(rows).byDate ==> ItemsOn(rows, d) == []
    decreases |rows|
  {
    if rows != [] {
      var prefix := rows[..|rows| - 1];
      var last := rows[|rows| - 1];
      assert rows == prefix + [last];
      OrganizeFilesByDate(prefix);
      forall d ensures ItemsOn(rows, d) == ItemsOn(prefix, d) + (if last.date == d then [Item(last)] else []) {
        ItemsOnAppend(prefix, last, d);
      }
    }
  }

  /** The number of items filed under date `d`. */
  function Listed(c: Coverage, d: Day): nat {
    if d in c.byDate then |c.byDate[d]| else 0
  }

  /** The number of items filed under the dates `ds`. */
  function ItemCount(c: Coverage, ds: seq<Day>): nat
    decreases |ds|
  {
    if ds == [] then 0 else Listed(c, ds[0]) + ItemCount(c, ds[1..])
  }

  lemma {:induction false} ItemCountAppend(c: Coverage, ds: seq<Day>, d: Day)
    ensures ItemCount(c, ds + [d]) == ItemCount(c, ds) + Listed(c, d)
    decreases |ds|
  {
    if ds != [] {
      assert (ds + [d])[1..] == ds[1..] + [d];
      ItemCountAppend(c, ds[1..], d);
    }
  }

  /** Filing one more item under `d` adds one item per occurrence of `d` in `ds`. */
  lemma {:induction false} ItemCountBump(p: Coverage, c: Coverage, ds: seq<Day>, d: Day)
    requires forall x :: x != d ==> Listed(c, x) == Listed(p, x)
    requires Listed(c, d) == Listed(p, d) + 1
    ensures ItemCount(c, ds) == ItemCount(p, ds) + multiset(ds)[d]
    decreases |ds|
  {
    if ds != [] {
      assert ds == [ds[0]] + ds[1..];
      assert multiset(ds) == multiset([ds[0]]) + multiset(ds[1..]);
      ItemCountBump(p, c, ds[1..], d);
    }
  }

  /** A date listed once in a list without repeats occurs there exactly once. */
  lemma {:induction false} OccursOnce(ds: seq<Day>, d: Day)
    requires d in ds
    requires forall i, j :: 0 <= i < j < |ds| ==> ds[i] != ds[j]
    ensures multiset(ds)[d] == 1
    decreases |ds|
  {
    assert ds == [ds[0]] + ds[1..];
    assert multiset(ds) == multiset([ds[0]]) + multiset(ds[1..]);
    if ds[0] == d {
      assert d !in ds[1..] by {
        forall i | 0 <= i < |ds[1..]| ensures ds[1..][i] != d {
          assert ds[1..][i] == ds[i + 1];
        }
      }
    } else {
      forall i, j | 0 <= i < j < |ds[1..]| ensures ds[1..][i] != ds[1..][j] {
        assert ds[1..][i] == ds[i + 1] && ds[1..][j] == ds[j + 1];
      }
      OccursOnce(ds[1..], d);
    }
  }

  /** Organising loses no row: the lists under the dict's keys hold one item per row. */
  lemma {:induction false} OrganizeKeepsRows(rows: seq<CoverageRow>)
    ensures ItemCount(Organize(rows), Organize(rows).dates) == |rows|
    decreases |rows|
  {
    if rows != [] {
      var prefix := rows[..|rows| - 1];
      var last := rows[|rows| - 1];
      OrganizeKeepsRows(prefix);
      OrganizeKeys(prefix);
      var p := Organize(prefix);
      var c := Organize(rows);
      assert c == AddRow(p, last);
      var d := last.date;
      ItemCountBump(p, c, p.dates, d);
      if d in p.byDate {
        OccursOnce(p.dates, d);
      } else {
        ItemCountAppend(c, p.dates, d);
      }
    }
  }

  /** get_shift_coverage: the rows of the coverage query organised into a dict keyed by date. */
  method ShiftCoverageReport(db: Database, uid: Id, start: Option<DateParam>, end: Option<DateParam>, week: (Day, Day))
    returns (r: Result<Coverage, Error>)
    ensures StaffGate(db.users, db.roles, uid).Err? ==> r == Err(StaffGate(db.users, db.roles, uid).error)
    ensures StaffGate(db.users, db.roles, uid).Ok? ==> (r.Ok? <==> ResolveRange(start, end, week).Ok?)
    ensures r.Ok? ==> var (lo, hi) := ResolveRange(start, end, week).value;
                      r.value == Organize(CoverageRows(db.rosters, db.shifts, lo, hi))
  {
    var gate := StaffGate(db.users, db.roles, uid);
    if gate.Err? {
      return Err(gate.error);
    }
    var range := ResolveRange(start, end, week);
    if range.Err? {
      return Err(range.error);
    }
    var (lo, hi) := range.value;
    var c := OrganizeRows(CoverageRows(db.rosters, db.shifts, lo, hi));
    r := Ok(c);
  }

  /** The loop of get_shift_coverage that files each row under its date. */
  method OrganizeRows(rows: seq<CoverageRow>) returns (c: Coverage)
    ensures c == Organize(rows)
  {
    var dates: seq<Day> := [];
    var byDate: map<Day, seq<ShiftCoverage>> := map[];
    var i := 0;
    while i < |rows|
      invariant 0 <= i <= |rows|
      invariant Coverage(dates, byDate) == Organize(rows[..i])
    {
      var row := rows[i];
      var item := ShiftCoverage(row.shiftName, row.color, row.scheduledCount, row.totalHours);
      if row.date in byDate {
        byDate := byDate[row.date := byDate[row.date] + [item]];
      } else {
        dates := dates + [row.date];
        byDate := byDate[row.date := [item]];
      }
      assert rows[..i + 1][..i] == rows[..i] && rows[..i + 1][i] == row;
      i := i + 1;
    }
    assert rows[..i] == rows;
    c := Coverage(dates, byDate);
  }

  /** The coverage report's dates are the dates with approved entries in the range,
      listed once each in ascending order. */
  lemma CoverageDatesAscending(rosters: map<Id, RosterEntry>, shifts: map<Id, Shift>, lo: Day, hi: Day)
    ensures var c := Organize(CoverageRows(rosters, shifts, lo, hi));
            && Increasing(c.dates)
            && (forall d :: d in c.byDate <==> d in CoveredDays(rosters, shifts, lo, hi))
  {
    var rows := CoverageRows(rosters, shifts, lo, hi);
    OrganizeKeys(rows);
    CoverageGroups(rosters, shifts, lo, hi);
    forall d | d in CoveredDays(rosters, shifts, lo, hi) ensures exists i :: 0 <= i < |rows| && rows[i].date == d {
      var k :| k in rosters && Covered(rosters, shifts, k, lo, hi) && rosters[k].date == d;
      assert HasRow(rows, rosters[k].date, rosters[k].shiftId);
      var i :| 0 <= i < |rows| && rows[i].date == rosters[k].date && rows[i].shiftId == rosters[k].shiftId;
    }
  }

  /** What the report files under a date are the items of that date's groups, in shift id
      order, each with the group's shift name and colour, entry count and total hours. */
  lemma CoverageReportItems(rosters: map<Id, RosterEntry>, shifts: map<Id, Shift>, lo: Day, hi: Day, d: Day)
    requires d in Organize(CoverageRows(rosters, shifts, lo, hi)).byDate
    ensures var items := Organize(CoverageRows(rosters, shifts, lo, hi)).byDate[d];
            var rows := DayRows(rosters, shifts, lo, hi, d);
            && |items| == |rows|
            && forall i :: 0 <= i < |items| ==> items[i] == Item(rows[i]) && RowOfGroup(rosters, shifts, lo, hi, rows[i])
  {
    var r := CoverageRows(rosters, shifts, lo, hi);
    var ds := SortedKeys(CoveredDays(rosters, shifts, lo, hi));
    SortedKeysIncreasing(CoveredDays(rosters, shifts, lo, hi));
    assert r == RowsForDays(rosters, shifts, lo, hi, ds);
    OrganizeFilesByDate(r);
    CoverageDatesAscending(rosters, shifts, lo, hi);
    assert d in ds;
    DayOfRowsForDays(rosters, shifts, lo, hi, ds, d);
  }
}
