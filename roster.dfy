/** The roster-entry lifecycle: role-scoped listing, creation with the
    no-double-booking check, partial update, deletion guarded by timesheets,
    the approve/reject decision, and all-or-nothing bulk creation. */
module Roster {
  import opened Common
  import opened Models
  import opened Decorators

  /** The fields of one entry in a create, bulk or update request body; None when the key is absent. */
  datatype EntryFields = EntryFields(
    employeeId: Option<Id>,
    shiftId: Option<Id>,
    date: Option<DateParam>,
    hours: Option<real>,
    notes: Option<string>)

  // ---------------------------------------------------------------------------
  // Listing

  /** The listing's query string. Dates and status are None when absent or empty;
      ids are None when absent or not an integer. */
  datatype RosterQuery = RosterQuery(
    startDate: Option<DateParam>,
    endDate: Option<DateParam>,
    employeeId: Option<int>,
    shiftId: Option<int>,
    status: Option<string>)

  /** Admin and Manager see every entry; any other role only its own. */
  predicate Visible(roleName: string, uid: Id, e: RosterEntry) {
    roleName == Admin || roleName == Manager || e.employeeId == uid
  }

  /** A date bound that parsed. */
  function Bound(p: Option<DateParam>): Option<Day> {
    if p.Some? && p.value.IsoDate? then Some(p.value.day) else None
  }

  /** The ANDed filters of the listing; an id of 0 is falsy and filters nothing. */
  predicate Matches(e: RosterEntry, from: Option<Day>, to: Option<Day>, q: RosterQuery) {
    && (from.Some? ==> from.value <= e.date)
    && (to.Some? ==> e.date <= to.value)
    && (q.employeeId.Some? && q.employeeId.value != 0 ==> e.employeeId == q.employeeId.value)
    && (q.shiftId.Some? && q.shiftId.value != 0 ==> e.shiftId == q.shiftId.value)
    && (q.status.Some? ==> StatusName(e.status) == q.status.value)
  }

  /** The start time of an entry's shift (0 when the shift is unknown). */
  function StartOf(rosters: map<Id, RosterEntry>, shifts: map<Id, Shift>, k: Id): Minute {
    if k in rosters && rosters[k].shiftId in shifts then shifts[rosters[k].shiftId].startTime else 0
  }

  function DateOf(rosters: map<Id, RosterEntry>, k: Id): Day {
    if k in rosters then rosters[k].date else 0
  }

  /** `order_by(date, start_time)`; the entry id breaks the ties the database leaves open. */
  predicate Before(rosters: map<Id, RosterEntry>, shifts: map<Id, Shift>, a: Id, b: Id) {
    || DateOf(rosters, a) < DateOf(rosters, b)
    || (DateOf(rosters, a) == DateOf(rosters, b) && StartOf(rosters, shifts, a) < StartOf(rosters, shifts, b))
    || (DateOf(rosters, a) == DateOf(rosters, b) && StartOf(rosters, shifts, a) == StartOf(rosters, shifts, b) && a < b)
  }

  predicate Sorted(rosters: map<Id, RosterEntry>, shifts: map<Id, Shift>, r: seq<Id>) {
    forall i, j :: 0 <= i < j < |r| ==> Before(rosters, shifts, r[i], r[j])
  }

  predicate IsFirst(rosters: map<Id, RosterEntry>, shifts: map<Id, Shift>, m: Id, s: set<Id>) {
    m in s && forall x :: x in s && x != m ==> Before(rosters, shifts, m, x)
  }

  /** The entry of `ids` that comes first in listing order. */
  function FirstOf(rosters: map<Id, RosterEntry>, shifts: map<Id, Shift>, ids: seq<Id>): (m: Id)
    requires ids != []
    ensures m in ids
    ensures forall x :: x in ids && x != m ==> Before(rosters, shifts, m, x)
  {
    if |ids| == 1 then ids[0]
    else
      var m := FirstOf(rosters, shifts, ids[1..]);
      assert forall x :: x in ids ==> x == ids[0] || x in ids[1..];
      if Before(rosters, shifts, ids[0], m) then ids[0] else m
  }

  /** The ids of `s` in listing order. */
  function Ordered(rosters: map<Id, RosterEntry>, shifts: map<Id, Shift>, s: set<Id>): (r: seq<Id>)
    ensures |r| == |s|
    ensures forall x :: x in s <==> x in r
    ensures Sorted(rosters, shifts, r)
    decreases |s|
  {
    if s == {} then []
    else
      var m := FirstOf(rosters, shifts, SortedKeys(s));
      var rest := Ordered(rosters, shifts, s - {m});
      SortedCons(rosters, shifts, m, rest, s);
      [m] + rest
  }

  lemma SortedCons(rosters: map<Id, RosterEntry>, shifts: map<Id, Shift>, m: Id, rest: seq<Id>, s: set<Id>)
    requires IsFirst(rosters, shifts, m, s) && Sorted(rosters, shifts, rest)
    requires forall x :: x in rest ==> x in s && x != m
    ensures Sorted(rosters, shifts, [m] + rest)
  {
    var r := [m] + rest;
    forall i, j | 0 <= i < j < |r| ensures Before(rosters, shifts, r[i], r[j]) {
      if i == 0 {
        assert r[j] == rest[j - 1] && rest[j - 1] in rest;
      } else {
        assert r[i] == rest[i - 1] && r[j] == rest[j - 1];
      }
    }
  }

  /** get_roster: the ids of the visible entries that pass every filter, in listing
      order (the inner join with shifts drops entries whose shift is gone). */
  function GetRoster(users: map<Id, User>, roles: map<Id, Role>, shifts: map<Id, Shift>,
                     rosters: map<Id, RosterEntry>, uid: Id, q: RosterQuery): (r: Result<seq<Id>, Error>)
    ensures RoleNameOf(users, roles, uid).None? ==> r == Err(Internal)
    ensures RoleNameOf(users, roles, uid).Some? && q.startDate == Some(Malformed) ==> r == Err(InvalidDate("start_date"))
    ensures RoleNameOf(users, roles, uid).Some? && q.startDate != Some(Malformed) && q.endDate == Some(Malformed)
            ==> r == Err(InvalidDate("end_date"))
    ensures r.Ok? <==> RoleNameOf(users, roles, uid).Some? && q.startDate != Some(Malformed) && q.endDate != Some(Malformed)
    ensures r.Ok? ==> forall k :: k in r.value <==>
              && k in rosters && rosters[k].shiftId in shifts
              && Visible(RoleNameOf(users, roles, uid).value, uid, rosters[k])
              && Matches(rosters[k], Bound(q.startDate), Bound(q.endDate), q)
    ensures r.Ok? ==> Sorted(rosters, shifts, r.value)
  {
    match RoleNameOf(users, roles, uid)
    case None => Err(Internal)
    case Some(roleName) =>
      if q.startDate == Some(Malformed) then Err(InvalidDate("start_date"))
      else if q.endDate == Some(Malformed) then Err(InvalidDate("end_date"))
      else
        var from, to := Bound(q.startDate), Bound(q.endDate);
        Ok(Ordered(rosters, shifts, set k | k in rosters && rosters[k].shiftId in shifts
                                          && Visible(roleName, uid, rosters[k]) && Matches(rosters[k], from, to, q)))
  }

  /** Sorted order has no repeats: each entry appears once in a listing. */
  lemma SortedDistinct(rosters: map<Id, RosterEntry>, shifts: map<Id, Shift>, r: seq<Id>, i: int, j: int)
    requires Sorted(rosters, shifts, r) && 0 <= i < j < |r|
    ensures r[i] != r[j]
  {
  }

  /** A principal that is neither Admin nor Manager only ever sees its own entries,
      and Admin or Manager with no filters sees every entry that has a shift. */
  lemma ListingScope(users: map<Id, User>, roles: map<Id, Role>, shifts: map<Id, Shift>,
                     rosters: map<Id, RosterEntry>, uid: Id, q: RosterQuery)
    requires GetRoster(users, roles, shifts, rosters, uid, q).Ok?
    ensures var name := RoleNameOf(users, roles, uid).value;
            var ids := GetRoster(users, roles, shifts, rosters, uid, q).value;
            && (name != Admin && name != Manager ==> forall i :: 0 <= i < |ids| ==> rosters[ids[i]].employeeId == uid)
            && ((name == Admin || name == Manager) && q == RosterQuery(None, None, None, None, None)
                ==> forall k :: k in rosters && rosters[k].shiftId in shifts ==> k in ids)
  {
    var ids := GetRoster(users, roles, shifts, rosters, uid, q).value;
    forall i | 0 <= i < |ids| ensures ids[i] in ids { }
  }

  // ---------------------------------------------------------------------------
  // Creation

  /** Some entry of `rosters` books `employee` on `day`. */
  predicate BookedOn(rosters: map<Id, RosterEntry>, employee: Id, day: Day) {
    exists k :: k in rosters && rosters[k].employeeId == employee && rosters[k].date == day
  }

  /** The schedule invariant: at most one entry per (employee, date). */
  predicate NoDoubleBooking(rosters: map<Id, RosterEntry>) {
    forall i, j ::
      i in rosters && j in rosters && rosters[i].employeeId == rosters[j].employeeId && rosters[i].date == rosters[j].date
      ==> i == j
  }

  /** The first of `employee_id, shift_id, date, hours` absent from the body. */
  function FirstMissing(f: EntryFields): (r: Option<string>)
    ensures r.None? <==> f.employeeId.Some? && f.shiftId.Some? && f.date.Some? && f.hours.Some?
    ensures r == Some("employee_id") <==> f.employeeId.None?
    ensures r == Some("shift_id") <==> f.employeeId.Some? && f.shiftId.None?
    ensures r == Some("date") <==> f.employeeId.Some? && f.shiftId.Some? && f.date.None?
    ensures r == Some("hours") <==> f.employeeId.Some? && f.shiftId.Some? && f.date.Some? && f.hours.None?
  {
    if f.employeeId.None? then Some("employee_id")
    else if f.shiftId.None? then Some("shift_id")
    else if f.date.None? then Some("date")
    else if f.hours.None? then Some("hours")
    else None
  }

  /** The body of an acceptable request: complete, with known employee and shift, a date
      that parses, and no entry yet for that employee on that date. */
  predicate Acceptable(users: map<Id, User>, shifts: map<Id, Shift>, rosters: map<Id, RosterEntry>, f: EntryFields) {
    && f.employeeId.Some? && f.shiftId.Some? && f.date.Some? && f.hours.Some?
    && f.employeeId.value in users && f.shiftId.value in shifts && f.date.value.IsoDate?
    && !BookedOn(rosters, f.employeeId.value, f.date.value.day)
  }

  /** The validation of create_roster_entry after the role gate: missing field, unknown
      employee, unknown shift, malformed date, double booking, in that order. */
  function CheckEntry(users: map<Id, User>, shifts: map<Id, Shift>, rosters: map<Id, RosterEntry>, f: EntryFields)
    : (r: Result<RosterEntry, Error>)
    ensures r.Ok? <==> Acceptable(users, shifts, rosters, f)
    ensures r.Ok? ==> r.value == NewRosterEntry(f.employeeId.value, f.shiftId.value, f.date.value.day,
                                                f.hours.value, f.notes.GetOr(""))
    ensures FirstMissing(f).Some? ==> r == Err(Required(FirstMissing(f).value))
    ensures FirstMissing(f).None? && f.employeeId.value !in users ==> r == Err(NotFound("Employee"))
    ensures FirstMissing(f).None? && f.employeeId.value in users && f.shiftId.value !in shifts ==> r == Err(NotFound("Shift"))
    ensures FirstMissing(f).None? && f.employeeId.value in users && f.shiftId.value in shifts && f.date.value.Malformed?
            ==> r == Err(InvalidDate("date"))
    ensures FirstMissing(f).None? && f.employeeId.value in users && f.shiftId.value in shifts && f.date.value.IsoDate?
            && BookedOn(rosters, f.employeeId.value, f.date.value.day)
            ==> r == Err(AlreadyScheduled)
  {
    match FirstMissing(f)
    case Some(field) => Err(Required(field))
    case None =>
      if f.employeeId.value !in users then Err(NotFound("Employee"))
      else if f.shiftId.value !in shifts then Err(NotFound("Shift"))
      else if f.date.value.Malformed? then Err(InvalidDate("date"))
      else if BookedOn(rosters, f.employeeId.value, f.date.value.day) then Err(AlreadyScheduled)
      else Ok(NewRosterEntry(f.employeeId.value, f.shiftId.value, f.date.value.day, f.hours.value, f.notes.GetOr("")))
  }

  /** Adding an entry that `CheckEntry` accepted keeps the schedule free of double bookings. */
  lemma {:induction false} AcceptedKeepsNoDoubleBooking(users: map<Id, User>, shifts: map<Id, Shift>,
                                                      rosters: map<Id, RosterEntry>, f: EntryFields, id: Id)
    requires NoDoubleBooking(rosters) && id !in rosters
    requires CheckEntry(users, shifts, rosters, f).Ok?
    ensures NoDoubleBooking(rosters[id := CheckEntry(users, shifts, rosters, f).value])
  {
  }

  /** The double-booking conflict: once an accepted entry is stored, a second create for
      the same employee and date fails, whatever its shift and hours. */
  lemma SecondBookingConflicts(users: map<Id, User>, shifts: map<Id, Shift>, rosters: map<Id, RosterEntry>,
                               f: EntryFields, g: EntryFields, id: Id)
    requires CheckEntry(users, shifts, rosters, f).Ok?
    requires g.employeeId == f.employeeId && g.date == f.date
    requires g.shiftId.Some? && g.shiftId.value in shifts && g.hours.Some?
    ensures CheckEntry(users, shifts, rosters[id := CheckEntry(users, shifts, rosters, f).value], g) == Err(AlreadyScheduled)
  {
    var stored := rosters[id := CheckEntry(users, shifts, rosters, f).value];
    assert stored[id].employeeId == f.employeeId.value && stored[id].date == f.date.value.day;
    assert BookedOn(stored, g.employeeId.value, g.date.value.day);
  }

  /** Which tables a handler may write; everything else compares equal to before. */
  predicate SameExceptRosters(a: Tables, b: Tables) {
    a.roles == b.roles && a.areas == b.areas && a.skills == b.skills && a.users == b.users
    && a.shifts == b.shifts && a.timesheets == b.timesheets && a.leaves == b.leaves
  }

  /** create_roster_entry. */
  method CreateRosterEntry(db: Database, uid: Id, f: EntryFields) returns (r: Result<Id, Error>)
    requires db.Valid()
    modifies db
    ensures db.Valid()
    ensures StaffGate(old(db.users), old(db.roles), uid).Err? ==> r == Err(StaffGate(old(db.users), old(db.roles), uid).error)
    ensures StaffGate(old(db.users), old(db.roles), uid).Ok? && CheckEntry(old(db.users), old(db.shifts), old(db.rosters), f).Err?
            ==> r == Err(CheckEntry(old(db.users), old(db.shifts), old(db.rosters), f).error)
    ensures r.Ok? <==> StaffGate(old(db.users), old(db.roles), uid).Ok? && CheckEntry(old(db.users), old(db.shifts), old(db.rosters), f).Ok?
    ensures r.Err? ==> db.Snapshot() == old(db.Snapshot())
    ensures r.Ok? ==> && r.value !in old(db.rosters)
                      && db.rosters == old(db.rosters)[r.value := CheckEntry(old(db.users), old(db.shifts), old(db.rosters), f).value]
                      && SameExceptRosters(db.Snapshot(), old(db.Snapshot()))
    ensures NoDoubleBooking(old(db.rosters)) ==> NoDoubleBooking(db.rosters)
  {
    var gate := StaffGate(db.users, db.roles, uid);
    if gate.Err? {
      return Err(gate.error);
    }
    var checked := CheckEntry(db.users, db.shifts, db.rosters, f);
    if checked.Err? {
      return Err(checked.error);
    }
    var id := db.nextId;
    if NoDoubleBooking(db.rosters) {
      AcceptedKeepsNoDoubleBooking(db.users, db.shifts, db.rosters, f, id);
    }
    db.rosters := db.rosters[id := checked.value];
    db.nextId := db.nextId + 1;
    r := Ok(id);
  }

  // ---------------------------------------------------------------------------
  // Update

  /** The partial update: supplied fields replace the old ones after the employee and
      shift are checked to exist and the date to parse; status, approver and approval
      time stay; no double-booking check is made. */
  function Patch(users: map<Id, User>, shifts: map<Id, Shift>, e: RosterEntry, f: EntryFields): (r: Result<RosterEntry, Error>)
    ensures r.Ok? <==> (f.employeeId.Some? ==> f.employeeId.value in users)
                       && (f.shiftId.Some? ==> f.shiftId.value in shifts)
                       && (f.date.Some? ==> f.date.value.IsoDate?)
    ensures f.employeeId.Some? && f.employeeId.value !in users ==> r == Err(NotFound("Employee"))
    ensures (f.employeeId.Some? ==> f.employeeId.value in users) && f.shiftId.Some? && f.shiftId.value !in shifts
            ==> r == Err(NotFound("Shift"))
    ensures r.Err? ==> r.error in {NotFound("Employee"), NotFound("Shift"), InvalidDate("date")}
    ensures r.Ok? ==> && r.value.employeeId == f.employeeId.GetOr(e.employeeId)
                      && r.value.shiftId == f.shiftId.GetOr(e.shiftId)
                      && r.value.date == (if f.date.Some? then f.date.value.day else e.date)
                      && r.value.hours == f.hours.GetOr(e.hours)
                      && r.value.notes == f.notes.GetOr(e.notes)
                      && r.value.status == e.status && r.value.approvedBy == e.approvedBy
                      && r.value.approvedAt == e.approvedAt
  {
    if f.employeeId.Some? && f.employeeId.value !in users then Err(NotFound("Employee"))
    else if f.shiftId.Some? && f.shiftId.value !in shifts then Err(NotFound("Shift"))
    else if f.date.Some? && f.date.value.Malformed? then Err(InvalidDate("date"))
    else
      Ok(e.(employeeId := f.employeeId.GetOr(e.employeeId),
            shiftId := f.shiftId.GetOr(e.shiftId),
            date := if f.date.Some? then f.date.value.day else e.date,
            hours := f.hours.GetOr(e.hours),
            notes := f.notes.GetOr(e.notes)))
  }

  /** A body with no fields leaves the entry as it was, and applying a body twice is
      the same as applying it once. */
  lemma PatchNeutralAndIdempotent(users: map<Id, User>, shifts: map<Id, Shift>, e: RosterEntry, f: EntryFields)
    ensures Patch(users, shifts, e, EntryFields(None, None, None, None, None)) == Ok(e)
    ensures Patch(users, shifts, e, f).Ok? ==>
              Patch(users, shifts, Patch(users, shifts, e, f).value, f) == Patch(users, shifts, e, f)
  {
  }

  /** The open question of the update path, answered: moving an entry onto a date the
      employee is already booked on is accepted and breaks the schedule invariant. */
  lemma UpdateCanDoubleBook()
    ensures var users := map[7 := User("g7", "e7@x", "E", "Seven", None, None, 1, None, {})];
            var shifts := map[2 := Shift("Day", 480, 960, 8.0, "", DefaultShiftColor)];
            var before := map[1 := NewRosterEntry(7, 2, 100, 8.0, ""), 3 := NewRosterEntry(7, 2, 101, 8.0, "")];
            var p := Patch(users, shifts, before[3], EntryFields(None, None, Some(IsoDate(100)), None, None));
            && NoDoubleBooking(before)
            && p.Ok?
            && !NoDoubleBooking(before[3 := p.value])
  {
    var users := map[7 := User("g7", "e7@x", "E", "Seven", None, None, 1, None, {})];
    var shifts := map[2 := Shift("Day", 480, 960, 8.0, "", DefaultShiftColor)];
    var before := map[1 := NewRosterEntry(7, 2, 100, 8.0, ""), 3 := NewRosterEntry(7, 2, 101, 8.0, "")];
    var p := Patch(users, shifts, before[3], EntryFields(None, None, Some(IsoDate(100)), None, None));
    var after := before[3 := p.value];
    assert after[1].date == after[3].date && after[1].employeeId == after[3].employeeId;
  }

  /** Replacing a stored entry by one whose employee, shift and approver are stored keeps
      every reference of the roster and timesheet tables valid. */
  lemma ReplaceKeepsReferences(users: map<Id, User>, shifts: map<Id, Shift>, rosters: map<Id, RosterEntry>,
                               timesheets: map<Id, Timesheet>, id: Id, e: RosterEntry)
    requires RostersReferToStore(rosters, users, shifts) && TimesheetsReferToStore(timesheets, users, rosters)
    requires id in rosters && e.employeeId in users && e.shiftId in shifts && ApproverKnown(e.approvedBy, users)
    ensures RostersReferToStore(rosters[id := e], users, shifts)
    ensures TimesheetsReferToStore(timesheets, users, rosters[id := e])
    ensures rosters[id := e].Keys == rosters.Keys
  {
  }

  /** update_roster_entry: the fields are assigned one at a time, as the handler does. */
  method UpdateRosterEntry(db: Database, uid: Id, id: Id, f: EntryFields) returns (r: Result<Id, Error>)
    requires db.Valid()
    modifies db
    ensures db.Valid()
    ensures StaffGate(old(db.users), old(db.roles), uid).Err? ==> r == Err(StaffGate(old(db.users), old(db.roles), uid).error)
    ensures StaffGate(old(db.users), old(db.roles), uid).Ok? && id !in old(db.rosters) ==> r == Err(NotFound("Roster entry"))
    ensures StaffGate(old(db.users), old(db.roles), uid).Ok? && id in old(db.rosters)
            ==> match Patch(old(db.users), old(db.shifts), old(db.rosters[id]), f)
                case Err(e) => r == Err(e)
                case Ok(e') => r == Ok(id) && db.rosters == old(db.rosters)[id := e']
    ensures r.Err? ==> db.Snapshot() == old(db.Snapshot())
    ensures SameExceptRosters(db.Snapshot(), old(db.Snapshot())) && db.nextId == old(db.nextId)
  {
    var gate := StaffGate(db.users, db.roles, uid);
    if gate.Err? {
      return Err(gate.error);
    }
    if id !in db.rosters {
      return Err(NotFound("Roster entry"));
    }
    var e := db.rosters[id];
    ghost var patched := Patch(db.users, db.shifts, e, f);
    if f.employeeId.Some? {
      if f.employeeId.value !in db.users {
        return Err(NotFound("Employee"));
      }
      e := e.(employeeId := f.employeeId.value);
    }
    if f.shiftId.Some? {
      if f.shiftId.value !in db.shifts {
        return Err(NotFound("Shift"));
      }
      e := e.(shiftId := f.shiftId.value);
    }
    if f.date.Some? {
      if f.date.value.Malformed? {
        return Err(InvalidDate("date"));
      }
      e := e.(date := f.date.value.day);
    }
    if f.hours.Some? {
      e := e.(hours := f.hours.value);
    }
    if f.notes.Some? {
      e := e.(notes := f.notes.value);
    }
    assert patched == Ok(e);
    ReplaceKeepsReferences(db.users, db.shifts, db.rosters, db.timesheets, id, e);
    db.rosters := db.rosters[id := e];
    r := Ok(id);
  }

  // ---------------------------------------------------------------------------
  // Deletion

  /** Some timesheet points at roster entry `id`. */
  predicate Referenced(timesheets: map<Id, Timesheet>, id: Id) {
    exists t :: t in timesheets && timesheets[t].rosterId == id
  }

  /** delete_roster_entry. */
  method DeleteRosterEntry(db: Database, uid: Id, id: Id) returns (r: Result<Id, Error>)
    requires db.Valid()
    modifies db
    ensures db.Valid()
    ensures StaffGate(old(db.users), old(db.roles), uid).Err? ==> r == Err(StaffGate(old(db.users), old(db.roles), uid).error)
    ensures StaffGate(old(db.users), old(db.roles), uid).Ok? && id !in old(db.rosters) ==> r == Err(NotFound("Roster entry"))
    ensures StaffGate(old(db.users), old(db.roles), uid).Ok? && id in old(db.rosters) && Referenced(old(db.timesheets), id)
            ==> r == Err(InUse("roster entry"))
    ensures r.Ok? <==> StaffGate(old(db.users), old(db.roles), uid).Ok? && id in old(db.rosters) && !Referenced(old(db.timesheets), id)
    ensures r.Err? ==> db.Snapshot() == old(db.Snapshot())
    ensures r.Ok? ==> db.rosters == old(db.rosters) - {id} && SameExceptRosters(db.Snapshot(), old(db.Snapshot()))
  {
    var gate := StaffGate(db.users, db.roles, uid);
    if gate.Err? {
      return Err(gate.error);
    }
    if id !in db.rosters {
      return Err(NotFound("Roster entry"));
    }
    if Referenced(db.timesheets, id) {
      return Err(InUse("roster entry"));
    }
    db.rosters := db.rosters - {id};
    r := Ok(id);
  }

  // ---------------------------------------------------------------------------
  // Approval

  /** The approve/reject transition: any prior status may be overwritten. */
  function Decide(e: RosterEntry, action: Option<string>, notes: Option<string>, approver: Id, now: Instant)
    : (r: Result<RosterEntry, Error>)
    ensures r.Err? <==> action != Some("approve") && action != Some("reject")
    ensures r.Err? ==> r.error == InvalidAction
    ensures r.Ok? ==> && r.value.status == (if action == Some("approve") then Approved else Rejected)
                      && r.value.approvedBy == Some(approver) && r.value.approvedAt == Some(now)
                      && r.value.notes == notes.GetOr(e.notes)
                      && r.value == e.(status := r.value.status, approvedBy := Some(approver), approvedAt := Some(now),
                                       notes := r.value.notes)
  {
    if action == Some("approve") || action == Some("reject") then
      Ok(e.(status := if action == Some("approve") then Approved else Rejected,
            approvedBy := Some(approver), approvedAt := Some(now), notes := notes.GetOr(e.notes)))
    else Err(InvalidAction)
  }

  /** No guard on the current status: deciding again overwrites the earlier decision,
      and the outcome does not depend on the status the entry had. */
  lemma {:induction false} DecisionOverwrites(e: RosterEntry, s: Status, a1: Option<string>, a2: Option<string>,
                                              by1: Id, by2: Id, t1: Instant, t2: Instant)
    requires Decide(e, a1, None, by1, t1).Ok? && Decide(e, a2, None, by2, t2).Ok?
    ensures Decide(Decide(e, a1, None, by1, t1).value, a2, None, by2, t2) == Decide(e, a2, None, by2, t2)
    ensures Decide(e.(status := s), a2, None, by2, t2) == Decide(e, a2, None, by2, t2)
  {
    var first := Decide(e, a1, None, by1, t1).value;
    assert first.notes == e.notes;
  }

  /** approve_roster_entry; `now` stands for `datetime.utcnow()`. */
  method ApproveRosterEntry(db: Database, uid: Id, id: Id, action: Option<string>, notes: Option<string>, now: Instant)
    returns (r: Result<Id, Error>)
    requires db.Valid()
    modifies db
    ensures db.Valid()
    ensures StaffGate(old(db.users), old(db.roles), uid).Err? ==> r == Err(StaffGate(old(db.users), old(db.roles), uid).error)
    ensures StaffGate(old(db.users), old(db.roles), uid).Ok? && id !in old(db.rosters) ==> r == Err(NotFound("Roster entry"))
    ensures StaffGate(old(db.users), old(db.roles), uid).Ok? && id in old(db.rosters)
            ==> match Decide(old(db.rosters[id]), action, notes, uid, now)
                case Err(e) => r == Err(e)
                case Ok(e') => r == Ok(id) && db.rosters == old(db.rosters)[id := e']
    ensures r.Err? ==> db.Snapshot() == old(db.Snapshot())
    ensures SameExceptRosters(db.Snapshot(), old(db.Snapshot())) && db.nextId == old(db.nextId)
  {
    var gate := StaffGate(db.users, db.roles, uid);
    if gate.Err? {
      return Err(gate.error);
    }
    if id !in db.rosters {
      return Err(NotFound("Roster entry"));
    }
    if action != Some("approve") && action != Some("reject") {
      return Err(InvalidAction);
    }
    var e := db.rosters[id];
    e := e.(status := if action == Some("approve") then Approved else Rejected);
    e := e.(approvedBy := Some(uid));
    e := e.(approvedAt := Some(now));
    if notes.Some? {
      e := e.(notes := notes.value);
    }
    assert Decide(old(db.rosters[id]), action, notes, uid, now) == Ok(e);
    ReplaceKeepsReferences(db.users, db.shifts, db.rosters, db.timesheets, id, e);
    db.rosters := db.rosters[id := e];
    r := Ok(id);
  }

  // ---------------------------------------------------------------------------
  // Bulk creation

  /** An error reported for the entry at 1-based `position` ("Entry {i+1}: ..."). */
  datatype PositionedError = PositionedError(position: nat, error: Error)

  datatype BulkFailure = Refused(error: Error) | BatchRejected(errors: seq<PositionedError>)

  /** The state of the bulk loop: the session's view of the table (committed rows and
      rows added in this batch, which autoflush makes visible to later queries), the ids
      created, the errors collected, and the next id. */
  datatype Batch = Batch(staged: map<Id, RosterEntry>, created: seq<Id>, errors: seq<PositionedError>, next: Id)

  /** The checks after the required-field loop, up to the first failure. A key that is
      absent raises KeyError when it is read, and the handler reports the key. */
  function LaterFailure(users: map<Id, User>, shifts: map<Id, Shift>, staged: map<Id, RosterEntry>, f: EntryFields)
    : (r: seq<Error>)
    ensures |r| <= 1
  {
    if f.employeeId.None? then [KeyMissing("employee_id")]
    else if f.employeeId.value !in users then [NotFound("Employee")]
    else if f.shiftId.None? then [KeyMissing("shift_id")]
    else if f.shiftId.value !in shifts then [NotFound("Shift")]
    else if f.date.None? then [KeyMissing("date")]
    else if f.date.value.Malformed? then [InvalidDate("date")]
    else if BookedOn(staged, f.employeeId.value, f.date.value.day) then [AlreadyScheduled]
    else if f.hours.None? then [KeyMissing("hours")]
    else []
  }

  /** The required-field loop as written: its `continue` only moves to the next field,
      so every missing field is reported and the entry is then checked further. */
  function RequiredErrorsAsWritten(f: EntryFields): (r: seq<Error>)
    ensures r == [] <==> FirstMissing(f).None?
    ensures r != [] ==> r[0] == Required(FirstMissing(f).value)
  {
    (if f.employeeId.None? then [Required("employee_id")] else [])
    + (if f.shiftId.None? then [Required("shift_id")] else [])
    + (if f.date.None? then [Required("date")] else [])
    + (if f.hours.None? then [Required("hours")] else [])
  }

  /** The errors one bulk entry produces, as the handler is written. */
  function EntryErrorsAsWritten(users: map<Id, User>, shifts: map<Id, Shift>, staged: map<Id, RosterEntry>, f: EntryFields)
    : seq<Error>
  {
    RequiredErrorsAsWritten(f) + LaterFailure(users, shifts, staged, f)
  }

  /** The errors one bulk entry produces when a missing field skips the entry, as the
      `continue` evidently intends: exactly the error the single create reports. */
  function EntryErrors(users: map<Id, User>, shifts: map<Id, Shift>, staged: map<Id, RosterEntry>, f: EntryFields)
    : (r: seq<Error>)
    ensures r == [] <==> CheckEntry(users, shifts, staged, f).Ok?
    ensures r != [] ==> r == [CheckEntry(users, shifts, staged, f).error]
  {
    match FirstMissing(f)
    case Some(field) => [Required(field)]
    case None => LaterFailure(users, shifts, staged, f)
  }

  /** Finding: an entry that lacks `employee_id` is reported twice as written, once for
      the missing field and once for the KeyError that follows. */
  lemma MissingFieldReportedTwice(users: map<Id, User>, shifts: map<Id, Shift>, staged: map<Id, RosterEntry>, f: EntryFields)
    requires f.employeeId.None?
    ensures EntryErrorsAsWritten(users, shifts, staged, f)[..1] == [Required("employee_id")]
    ensures EntryErrorsAsWritten(users, shifts, staged, f)[|EntryErrorsAsWritten(users, shifts, staged, f)| - 1]
            == KeyMissing("employee_id")
    ensures |EntryErrorsAsWritten(users, shifts, staged, f)| >= 2
    ensures EntryErrors(users, shifts, staged, f) == [Required("employee_id")]
  {
  }

  /** The defect changes the messages only: both versions reject the same entries, and
      the corrected report is the first message of the one as written. */
  lemma {:induction false} AsWrittenSameVerdict(users: map<Id, User>, shifts: map<Id, Shift>,
                                                staged: map<Id, RosterEntry>, f: EntryFields)
    ensures EntryErrorsAsWritten(users, shifts, staged, f) == [] <==> EntryErrors(users, shifts, staged, f) == []
    ensures EntryErrors(users, shifts, staged, f) != [] ==>
              EntryErrors(users, shifts, staged, f) == EntryErrorsAsWritten(users, shifts, staged, f)[..1]
  {
    var req := RequiredErrorsAsWritten(f);
    var asWritten := EntryErrorsAsWritten(users, shifts, staged, f);
    if req != [] {
      assert asWritten[0] == req[0];
    }
  }

  /** The errors `errs` of the entry at `position`. */
  function At(position: nat, errs: seq<Error>): (r: seq<PositionedError>)
    ensures |r| == |errs|
    ensures forall i :: 0 <= i < |r| ==> r[i] == PositionedError(position, errs[i])
  {
    seq(|errs|, i requires 0 <= i < |errs| => PositionedError(position, errs[i]))
  }

  /** One turn of the bulk loop over the entry at 1-based `position`. */
  function BulkStep(users: map<Id, User>, shifts: map<Id, Shift>, b: Batch, position: nat, f: EntryFields): Batch {
    var errs := EntryErrors(users, shifts, b.staged, f);
    if errs == [] then
      Batch(b.staged[b.next := CheckEntry(users, shifts, b.staged, f).value], b.created + [b.next], b.errors, b.next + 1)
    else
      Batch(b.staged, b.created, b.errors + At(position, errs), b.next)
  }

  /** The bulk loop over a prefix of the entries, starting from the committed table. */
  function BulkFold(users: map<Id, User>, shifts: map<Id, Shift>, rosters: map<Id, RosterEntry>, next0: Id,
                    entries: seq<EntryFields>): Batch
    decreases |entries|
  {
    if entries == [] then Batch(rosters, [], [], next0)
    else
      BulkStep(users, shifts, BulkFold(users, shifts, rosters, next0, entries[..|entries| - 1]),
               |entries|, entries[|entries| - 1])
  }

  /** One turn of the bulk loop as written: the entry gets every message the handler
      produces for it. It is staged exactly when the corrected turn stages it. */
  function BulkStepAsWritten(users: map<Id, User>, shifts: map<Id, Shift>, b: Batch, position: nat, f: EntryFields): Batch {
    var errs := EntryErrorsAsWritten(users, shifts, b.staged, f);
    AsWrittenSameVerdict(users, shifts, b.staged, f);
    if errs == [] then
      Batch(b.staged[b.next := CheckEntry(users, shifts, b.staged, f).value], b.created + [b.next], b.errors, b.next + 1)
    else
      Batch(b.staged, b.created, b.errors + At(position, errs), b.next)
  }

  /** The bulk loop as written, over a prefix of the entries. */
  function BulkFoldAsWritten(users: map<Id, User>, shifts: map<Id, Shift>, rosters: map<Id, RosterEntry>, next0: Id,
                             entries: seq<EntryFields>): Batch
    decreases |entries|
  {
    if entries == [] then Batch(rosters, [], [], next0)
    else
      BulkStepAsWritten(users, shifts, BulkFoldAsWritten(users, shifts, rosters, next0, entries[..|entries| - 1]),
                        |entries|, entries[|entries| - 1])
  }

  /** The loop as written and the corrected one stage the same rows, create the same ids
      and reject the same batches; every corrected message is also reported as written. */
  lemma {:induction false} AsWrittenBatchAgrees(users: map<Id, User>, shifts: map<Id, Shift>, rosters: map<Id, RosterEntry>,
                                                next0: Id, entries: seq<EntryFields>)
    ensures BulkFoldAsWritten(users, shifts, rosters, next0, entries).staged == BulkFold(users, shifts, rosters, next0, entries).staged
    ensures BulkFoldAsWritten(users, shifts, rosters, next0, entries).created == BulkFold(users, shifts, rosters, next0, entries).created
    ensures BulkFoldAsWritten(users, shifts, rosters, next0, entries).next == BulkFold(users, shifts, rosters, next0, entries).next
    ensures BulkFoldAsWritten(users, shifts, rosters, next0, entries).errors == []
            <==> BulkFold(users, shifts, rosters, next0, entries).errors == []
    ensures forall e :: e in BulkFold(users, shifts, rosters, next0, entries).errors
                        ==> e in BulkFoldAsWritten(users, shifts, rosters, next0, entries).errors
    decreases |entries|
  {
    if entries != [] {
      var prefix := entries[..|entries| - 1];
      var f := entries[|entries| - 1];
      AsWrittenBatchAgrees(users, shifts, rosters, next0, prefix);
      var ap := BulkFoldAsWritten(users, shifts, rosters, next0, prefix);
      var bp := BulkFold(users, shifts, rosters, next0, prefix);
      var written := EntryErrorsAsWritten(users, shifts, bp.staged, f);
      var fixed := EntryErrors(users, shifts, bp.staged, f);
      AsWrittenSameVerdict(users, shifts, bp.staged, f);
      if fixed != [] {
        var a := BulkFoldAsWritten(users, shifts, rosters, next0, entries);
        var b := BulkFold(users, shifts, rosters, next0, entries);
        assert a.errors == ap.errors + At(|entries|, written);
        assert b.errors == bp.errors + At(|entries|, fixed);
        assert |fixed| == 1 && fixed[0] == written[0];
        assert a.errors[|ap.errors|] == PositionedError(|entries|, written[0]);
        forall e | e in b.errors ensures e in a.errors {
          if e !in bp.errors {
            assert e == PositionedError(|entries|, fixed[0]);
          }
        }
      }
    }
  }

  /** Finding, for a whole batch: one entry without `employee_id` is reported twice as
      written and once when corrected. */
  lemma BulkScenarioMissingEmployee(users: map<Id, User>, shifts: map<Id, Shift>, shift: Id, day: int)
    ensures var entries := [EntryFields(None, Some(shift), Some(IsoDate(day)), Some(8.0), None)];
            && BulkFoldAsWritten(users, shifts, map[], 1, entries).errors
               == [PositionedError(1, Required("employee_id")), PositionedError(1, KeyMissing("employee_id"))]
            && BulkFold(users, shifts, map[], 1, entries).errors == [PositionedError(1, Required("employee_id"))]
  {
    var f := EntryFields(None, Some(shift), Some(IsoDate(day)), Some(8.0), None);
    assert [f][..0] == [];
    assert EntryErrorsAsWritten(users, shifts, map[], f) == [Required("employee_id"), KeyMissing("employee_id")];
  }

  /** The staged table keeps the committed rows, refers only to stored employees and
      shifts, has no approvals, and every staged id lies below the next id. */
  lemma {:induction false} BulkFoldWellFormed(users: map<Id, User>, shifts: map<Id, Shift>, rosters: map<Id, RosterEntry>,
                                              next0: Id, entries: seq<EntryFields>)
    requires RostersReferToStore(rosters, users, shifts) && KeysBelow(rosters, next0)
    ensures var b := BulkFold(users, shifts, rosters, next0, entries);
            && RostersReferToStore(b.staged, users, shifts) && KeysBelow(b.staged, b.next)
            && rosters.Keys <= b.staged.Keys && b.next == next0 + |b.created|
            && (forall k :: k in rosters ==> b.staged[k] == rosters[k])
    decreases |entries|
  {
    if entries != [] {
      BulkFoldWellFormed(users, shifts, rosters, next0, entries[..|entries| - 1]);
    }
  }

  predicate PositionsWithin(errs: seq<PositionedError>, n: int) {
    forall i :: 0 <= i < |errs| ==> 1 <= errs[i].position <= n
  }

  /** Every reported error carries the 1-based position of an entry of the input. */
  lemma {:induction false} BulkErrorsPositioned(users: map<Id, User>, shifts: map<Id, Shift>, rosters: map<Id, RosterEntry>,
                                                next0: Id, entries: seq<EntryFields>)
    ensures PositionsWithin(BulkFold(users, shifts, rosters, next0, entries).errors, |entries|)
    decreases |entries|
  {
    if entries != [] {
      var prefix := entries[..|entries| - 1];
      BulkErrorsPositioned(users, shifts, rosters, next0, prefix);
      var p := BulkFold(users, shifts, rosters, next0, prefix);
      var errs := BulkFold(users, shifts, rosters, next0, entries).errors;
      var found := EntryErrors(users, shifts, p.staged, entries[|entries| - 1]);
      assert errs == if found == [] then p.errors else p.errors + At(|entries|, found);
      forall i | 0 <= i < |errs| ensures 1 <= errs[i].position <= |entries| {
        if i < |p.errors| {
          assert errs[i] == p.errors[i];
        } else {
          assert found != [] && errs[i] == At(|entries|, found)[i - |p.errors|];
        }
      }
    }
  }

  /** An entry that is incomplete, names an unknown employee or shift, or has a date that
      does not parse, is reported at its position, whatever the other entries are. */
  predicate Defective(users: map<Id, User>, shifts: map<Id, Shift>, f: EntryFields) {
    || FirstMissing(f).Some?
    || f.employeeId.value !in users
    || f.shiftId.value !in shifts
    || f.date.value.Malformed?
  }

  lemma {:induction false} BulkReportsDefect(users: map<Id, User>, shifts: map<Id, Shift>, rosters: map<Id, RosterEntry>,
                                             next0: Id, entries: seq<EntryFields>, k: nat)
    requires 1 <= k <= |entries| && Defective(users, shifts, entries[k - 1])
    ensures exists i :: 0 <= i < |BulkFold(users, shifts, rosters, next0, entries).errors|
                        && BulkFold(users, shifts, rosters, next0, entries).errors[i].position == k
    decreases |entries|
  {
    var prefix := entries[..|entries| - 1];
    var b := BulkFold(users, shifts, rosters, next0, prefix);
    var last := entries[|entries| - 1];
    if k == |entries| {
      var errs := EntryErrors(users, shifts, b.staged, last);
      assert errs != [];
      var whole := BulkFold(users, shifts, rosters, next0, entries);
      assert whole.errors == b.errors + At(k, errs);
      assert whole.errors[|b.errors|].position == k;
    } else {
      assert prefix[k - 1] == entries[k - 1];
      BulkReportsDefect(users, shifts, rosters, next0, prefix, k);
      var i :| 0 <= i < |b.errors| && b.errors[i].position == k;
      assert BulkFold(users, shifts, rosters, next0, entries).errors[..|b.errors|] == b.errors;
      assert BulkFold(users, shifts, rosters, next0, entries).errors[i] == b.errors[i];
    }
  }

  /** A clean batch creates one pending entry per input, carrying that input's fields. */
  lemma {:induction false} BulkCreatesEveryEntry(users: map<Id, User>, shifts: map<Id, Shift>, rosters: map<Id, RosterEntry>,
                                                 next0: Id, entries: seq<EntryFields>)
    requires KeysBelow(rosters, next0)
    ensures var b := BulkFold(users, shifts, rosters, next0, entries);
            b.errors == [] ==>
              && |b.created| == |entries|
              && forall i :: 0 <= i < |entries| ==>
                   && b.created[i] in b.staged && b.created[i] !in rosters
                   && var e := b.staged[b.created[i]];
                      && Some(e.employeeId) == entries[i].employeeId && Some(e.shiftId) == entries[i].shiftId
                      && entries[i].date == Some(IsoDate(e.date)) && Some(e.hours) == entries[i].hours
                      && e.notes == entries[i].notes.GetOr("") && Undecided(e.status, e.approvedBy, e.approvedAt)
    decreases |entries|
  {
    var b := BulkFold(users, shifts, rosters, next0, entries);
    if entries != [] && b.errors == [] {
      var prefix := entries[..|entries| - 1];
      var p := BulkFold(users, shifts, rosters, next0, prefix);
      BulkCreatesEveryEntry(users, shifts, rosters, next0, prefix);
      BulkFoldWellFormed(users, shifts, map[], next0, []);
      assert p.errors == [] by {
        assert |b.errors| >= |p.errors|;
      }
      assert EntryErrors(users, shifts, p.staged, entries[|entries| - 1]) == [];
      CreatedBelowNext(users, shifts, rosters, next0, prefix);
      forall i | 0 <= i < |entries|
        ensures b.created[i] in b.staged && b.created[i] !in rosters
      {
        if i < |prefix| { assert prefix[i] == entries[i]; }
      }
    }
  }

  /** Ids are handed out from `next0` upwards, so each created id is fresh. */
  lemma {:induction false} CreatedBelowNext(users: map<Id, User>, shifts: map<Id, Shift>, rosters: map<Id, RosterEntry>,
                                            next0: Id, entries: seq<EntryFields>)
    ensures var b := BulkFold(users, shifts, rosters, next0, entries);
            && b.next == next0 + |b.created|
            && (forall i :: 0 <= i < |b.created| ==> b.created[i] == next0 + i)
            && (forall k :: k in b.staged && k !in rosters ==> next0 <= k < b.next)
            && (forall k :: k in b.staged && k >= next0 ==> k < b.next || k in rosters)
    decreases |entries|
  {
    if entries != [] {
      CreatedBelowNext(users, shifts, rosters, next0, entries[..|entries| - 1]);
    }
  }

  /** The batch keeps the schedule free of double bookings: each staged entry is checked
      against the committed rows and against the earlier entries of the batch. */
  lemma {:induction false} BulkKeepsNoDoubleBooking(users: map<Id, User>, shifts: map<Id, Shift>, rosters: map<Id, RosterEntry>,
                                                    next0: Id, entries: seq<EntryFields>)
    requires NoDoubleBooking(rosters) && KeysBelow(rosters, next0)
    ensures NoDoubleBooking(BulkFold(users, shifts, rosters, next0, entries).staged)
    decreases |entries|
  {
    if entries != [] {
      var prefix := entries[..|entries| - 1];
      var p := BulkFold(users, shifts, rosters, next0, prefix);
      BulkKeepsNoDoubleBooking(users, shifts, rosters, next0, prefix);
      var f := entries[|entries| - 1];
      if EntryErrors(users, shifts, p.staged, f) == [] {
        CreatedBelowNext(users, shifts, rosters, next0, prefix);
        assert p.next !in p.staged;
        AcceptedKeepsNoDoubleBooking(users, shifts, p.staged, f, p.next);
      }
    }
  }

  /** create_bulk_roster: the loop stages entries and collects errors; any error rolls
      the whole batch back, otherwise every staged entry is committed. */
  method CreateBulkRoster(db: Database, uid: Id, entries: seq<EntryFields>) returns (r: Result<seq<Id>, BulkFailure>)
    requires db.Valid()
    modifies db
    ensures db.Valid()
    ensures StaffGate(old(db.users), old(db.roles), uid).Err?
            ==> r == Err(Refused(StaffGate(old(db.users), old(db.roles), uid).error))
    ensures StaffGate(old(db.users), old(db.roles), uid).Ok? && entries == [] ==> r == Err(Refused(NoEntries))
    ensures StaffGate(old(db.users), old(db.roles), uid).Ok? && entries != [] ==>
              var b := BulkFold(old(db.users), old(db.shifts), old(db.rosters), old(db.nextId), entries);
              && (b.errors != [] ==> r == Err(BatchRejected(b.errors)))
              && (b.errors == [] ==> r == Ok(b.created) && db.rosters == b.staged && db.nextId == b.next)
    ensures StaffGate(old(db.users), old(db.roles), uid).Ok? && entries != [] ==>
              (r.Err? <==> BulkFoldAsWritten(old(db.users), old(db.shifts), old(db.rosters), old(db.nextId), entries).errors != [])
    ensures r.Err? ==> db.Snapshot() == old(db.Snapshot())
    ensures SameExceptRosters(db.Snapshot(), old(db.Snapshot()))
    ensures NoDoubleBooking(old(db.rosters)) ==> NoDoubleBooking(db.rosters)
  {
    var gate := StaffGate(db.users, db.roles, uid);
    if gate.Err? {
      return Err(Refused(gate.error));
    }
    if |entries| == 0 {
      return Err(Refused(NoEntries));
    }
    var b := StageEntries(db.users, db.shifts, db.rosters, db.nextId, entries);
    AsWrittenBatchAgrees(db.users, db.shifts, db.rosters, db.nextId, entries);
    if b.errors != [] {
      return Err(BatchRejected(b.errors));
    }
    BulkFoldWellFormed(db.users, db.shifts, db.rosters, db.nextId, entries);
    if NoDoubleBooking(db.rosters) {
      BulkKeepsNoDoubleBooking(db.users, db.shifts, db.rosters, db.nextId, entries);
    }
    db.rosters := b.staged;
    db.nextId := b.next;
    r := Ok(b.created);
  }

  /** The loop of create_bulk_roster over the entries, in input order: each entry is
      checked against the committed rows and the ones staged before it. */
  method StageEntries(users: map<Id, User>, shifts: map<Id, Shift>, rosters: map<Id, RosterEntry>, next0: Id,
                      entries: seq<EntryFields>) returns (b: Batch)
    ensures b == BulkFold(users, shifts, rosters, next0, entries)
  {
    var staged := rosters;
    var created: seq<Id> := [];
    var errors: seq<PositionedError> := [];
    var next := next0;
    var i := 0;
    while i < |entries|
      invariant 0 <= i <= |entries|
      invariant Batch(staged, created, errors, next) == BulkFold(users, shifts, rosters, next0, entries[..i])
    {
      var f := entries[i];
      var errs := EntryErrors(users, shifts, staged, f);
      if errs == [] {
        var e := CheckEntry(users, shifts, staged, f).value;
        staged := staged[next := e];
        created := created + [next];
        next := next + 1;
      } else {
        errors := errors + At(i + 1, errs);
      }
      assert entries[..i + 1][..i] == entries[..i];
      i := i + 1;
    }
    assert entries[..i] == entries;
    b := Batch(staged, created, errors, next);
  }

  /** Three entries where the second names a shift that does not exist: the batch is
      rejected with exactly one error, at position 2. */
  lemma BulkScenarioUnknownShift()
    ensures var users := map[7 := User("g7", "e7@x", "E", "Seven", None, None, 1, None, {})];
            var shifts := map[2 := Shift("Day", 480, 960, 8.0, "", DefaultShiftColor)];
            var entries := [EntryFields(Some(7), Some(2), Some(IsoDate(100)), Some(8.0), None),
                            EntryFields(Some(7), Some(99), Some(IsoDate(101)), Some(8.0), None),
                            EntryFields(Some(7), Some(2), Some(IsoDate(102)), Some(8.0), None)];
            BulkFold(users, shifts, map[], 1, entries).errors == [PositionedError(2, NotFound("Shift"))]
  {
    var users := map[7 := User("g7", "e7@x", "E", "Seven", None, None, 1, None, {})];
    var shifts := map[2 := Shift("Day", 480, 960, 8.0, "", DefaultShiftColor)];
    var e1 := EntryFields(Some(7), Some(2), Some(IsoDate(100)), Some(8.0), None);
    var e2 := EntryFields(Some(7), Some(99), Some(IsoDate(101)), Some(8.0), None);
    var e3 := EntryFields(Some(7), Some(2), Some(IsoDate(102)), Some(8.0), None);
    var entries := [e1, e2, e3];
    assert entries[..2] == [e1, e2] && [e1, e2][..1] == [e1] && [e1][..0] == [];
    var b0 := BulkFold(users, shifts, map[], 1, []);
    assert !BookedOn(map[], 7, 100);
    var b1 := BulkFold(users, shifts, map[], 1, [e1]);
    assert b1 == BulkStep(users, shifts, b0, 1, e1);
    assert b1.staged == map[1 := NewRosterEntry(7, 2, 100, 8.0, "")] && b1.errors == [];
    var b2 := BulkFold(users, shifts, map[], 1, [e1, e2]);
    assert b2 == BulkStep(users, shifts, b1, 2, e2);
    assert b2.staged == b1.staged && b2.errors == [PositionedError(2, NotFound("Shift"))];
    assert !BookedOn(b2.staged, 7, 102);
    var b3 := BulkFold(users, shifts, map[], 1, entries);
    assert b3 == BulkStep(users, shifts, b2, 3, e3);
  }
}
