/** Employee management: the filtered listing, creation with its uniqueness and
    reference checks, viewing, the field-by-field update whose allowed fields
    depend on who asks, deletion guarded by roster entries and timesheets, and
    adding or removing a skill. Request bodies are JSON objects, modelled as
    maps from key to value. The store's schema is enforced at commit: a change
    that breaks a unique, not-null or foreign-key rule fails there (HTTP 500).
    That the database enforces foreign keys is an assumption of this model. */
module Employees {
  import opened Common
  import opened Models
  import opened Decorators

  const ManageEmployees: string := "manage_employees"

  /** A JSON request body. */
  type Body = map<string, Json>

  // ---------------------------------------------------------------------------
  // Listing and viewing

  /** The listing's query string: ids are None when absent or not integers; an empty
      `search` is no search. */
  datatype EmployeeQuery = EmployeeQuery(roleId: Option<int>, areaId: Option<int>, skillId: Option<int>, search: string)

  /** An id filter that is given and truthy (0 filters nothing). */
  predicate Given(p: Option<int>) {
    p.Some? && p.value != 0
  }

  /** `search`, as an `ilike` pattern between `%`s, matches the name, surname, email or employee code. */
  predicate SearchHit(u: User, search: string) {
    || ILike(u.name, search) || ILike(u.surname, search) || ILike(u.email, search)
    || (u.employeeCode.Some? && ILike(u.employeeCode.value, search))
  }

  /** The listing's filters, ANDed. */
  predicate Selected(u: User, q: EmployeeQuery) {
    && (Given(q.roleId) ==> u.roleId == q.roleId.value)
    && (Given(q.areaId) ==> u.areaId == Some(q.areaId.value))
    && (Given(q.skillId) ==> q.skillId.value in u.skills)
    && (q.search != "" ==> SearchHit(u, q.search))
  }

  /** get_employees: Admin and Manager only; the ids of the employees the filters select. */
  function GetEmployees(users: map<Id, User>, roles: map<Id, Role>, uid: Id, q: EmployeeQuery): (r: Result<set<Id>, Error>)
    ensures StaffGate(users, roles, uid).Err? ==> r == Err(StaffGate(users, roles, uid).error)
    ensures r.Ok? <==> StaffGate(users, roles, uid).Ok?
    ensures r.Ok? ==> forall u :: u in r.value <==> u in users && Selected(users[u], q)
  {
    var gate := StaffGate(users, roles, uid);
    if gate.Err? then Err(gate.error) else Ok(set u | u in users && Selected(users[u], q))
  }

  /** The filters combine by intersection: the listing with every filter is what the
      single-filter listings have in common. */
  lemma {:induction false} FiltersIntersect(users: map<Id, User>, roles: map<Id, Role>, uid: Id, q: EmployeeQuery)
    requires StaffGate(users, roles, uid).Ok?
    ensures GetEmployees(users, roles, uid, q).value
         == GetEmployees(users, roles, uid, EmployeeQuery(q.roleId, None, None, "")).value
          * GetEmployees(users, roles, uid, EmployeeQuery(None, q.areaId, None, "")).value
          * GetEmployees(users, roles, uid, EmployeeQuery(None, None, q.skillId, "")).value
          * GetEmployees(users, roles, uid, EmployeeQuery(None, None, None, q.search)).value
  {
    var all := GetEmployees(users, roles, uid, q).value;
    var a := GetEmployees(users, roles, uid, EmployeeQuery(q.roleId, None, None, "")).value;
    var b := GetEmployees(users, roles, uid, EmployeeQuery(None, q.areaId, None, "")).value;
    var c := GetEmployees(users, roles, uid, EmployeeQuery(None, None, q.skillId, "")).value;
    var d := GetEmployees(users, roles, uid, EmployeeQuery(None, None, None, q.search)).value;
    forall u ensures u in all <==> u in a * b * c * d {
      if u in users {
        assert Selected(users[u], q) <==>
          (&& Selected(users[u], EmployeeQuery(q.roleId, None, None, ""))
           && Selected(users[u], EmployeeQuery(None, q.areaId, None, ""))
           && Selected(users[u], EmployeeQuery(None, None, q.skillId, ""))
           && Selected(users[u], EmployeeQuery(None, None, None, q.search)));
      }
    }
  }

  /** Skipping the filter for an empty `search` changes nothing: the empty pattern
      matches every name. */
  lemma EmptySearchMatchesAll(u: User)
    ensures SearchHit(u, "")
  {
    ILikeEmptyPattern(u.name);
  }

  /** get_employee: one may view oneself; Admin and Manager may view anyone. */
  function GetEmployee(users: map<Id, User>, roles: map<Id, Role>, areas: map<Id, Area>, skills: map<Id, Skill>,
                       uid: Id, id: Id): (r: Result<UserView, Error>)
    ensures RoleNameOf(users, roles, uid).None? ==> r == Err(Internal)
    ensures r.Ok? <==> && RoleNameOf(users, roles, uid).Some?
                       && (RoleNameOf(users, roles, uid).value in {Admin, Manager} || uid == id)
                       && id in users
    ensures RoleNameOf(users, roles, uid).Some? && RoleNameOf(users, roles, uid).value !in {Admin, Manager} && uid != id
            ==> r == Err(InsufficientPermissions)
    ensures r.Err? ==> r.error in {Internal, InsufficientPermissions, NotFound("Employee")}
    ensures r.Ok? ==> r.value == UserToDict(roles, areas, skills, id, users[id])
  {
    match RoleNameOf(users, roles, uid)
    case None => Err(Internal)
    case Some(name) =>
      if name != Admin && name != Manager && uid != id then Err(InsufficientPermissions)
      else if id !in users then Err(NotFound("Employee"))
      else Ok(UserToDict(roles, areas, skills, id, users[id]))
  }

  // ---------------------------------------------------------------------------
  // Schema rules checked at commit

  /** Storing `u` under `id` keeps the user table unique and its references resolved. */
  predicate Storable(users: map<Id, User>, roles: map<Id, Role>, areas: map<Id, Area>, skills: map<Id, Skill>,
                     id: Id, u: User) {
    && UniqueUserKeys(users[id := u])
    && u.roleId in roles
    && (u.areaId.Some? ==> u.areaId.value in areas)
    && u.skills <= skills.Keys
  }

  /** A stored user that is replaced by a storable one leaves the user rules intact. */
  lemma {:induction false} StorableKeepsUsersValid(users: map<Id, User>, roles: map<Id, Role>, areas: map<Id, Area>,
                                                   skills: map<Id, Skill>, id: Id, u: User)
    requires UsersReferToStore(users, roles, areas, skills)
    requires Storable(users, roles, areas, skills, id, u)
    ensures UsersReferToStore(users[id := u], roles, areas, skills)
  {
  }

  /** The text value of a body key, when it is a string. */
  function Text(body: Body, key: string): Option<string> {
    if key in body && body[key].JText? then Some(body[key].t) else None
  }

  /** A nullable text column's value: absent or null is NULL; None when it is not text. */
  function NullableText(body: Body, key: string): Option<Option<string>> {
    if key !in body || body[key].JNull? then Some(None)
    else if body[key].JText? then Some(Some(body[key].t))
    else None
  }

  // ---------------------------------------------------------------------------
  // Creation

  /** The first required key of create_employee that the body lacks. */
  function MissingKey(body: Body): (r: Option<string>)
    ensures r.None? <==> "google_id" in body && "email" in body && "name" in body && "surname" in body && "role_id" in body
    ensures r.Some? ==> r.value !in body
    ensures r == Some("google_id") <==> "google_id" !in body
    ensures r == Some("email") <==> "google_id" in body && "email" !in body
    ensures r == Some("name") <==> "google_id" in body && "email" in body && "name" !in body
    ensures r == Some("surname") <==> "google_id" in body && "email" in body && "name" in body && "surname" !in body
    ensures r == Some("role_id") <==> "google_id" in body && "email" in body && "name" in body && "surname" in body
                                      && "role_id" !in body
  {
    if "google_id" !in body then Some("google_id")
    else if "email" !in body then Some("email")
    else if "name" !in body then Some("name")
    else if "surname" !in body then Some("surname")
    else if "role_id" !in body then Some("role_id")
    else None
  }

  /** A stored user already has the body's google_id or email. */
  predicate Clashes(users: map<Id, User>, body: Body) {
    exists u :: u in users && (Text(body, "google_id") == Some(users[u].googleId) || Text(body, "email") == Some(users[u].email))
  }

  /** `Role.query.get(body[key])` finds a role (only an integer id can). */
  predicate RoleFound(roles: map<Id, Role>, body: Body, key: string) {
    key in body && body[key].JNum? && body[key].n in roles
  }

  predicate AreaFound(areas: map<Id, Area>, body: Body, key: string) {
    key in body && body[key].JNum? && body[key].n in areas
  }

  /** The record create_employee builds, or None when a value does not fit its column. */
  function Built(body: Body): Option<User> {
    var code, contact := NullableText(body, "employee_id"), NullableText(body, "contact_no");
    var area := if "area_of_responsibility_id" !in body || body["area_of_responsibility_id"].JNull? then Some(None)
                else if body["area_of_responsibility_id"].JNum? then Some(Some(body["area_of_responsibility_id"].n))
                else None;
    if Text(body, "google_id").Some? && Text(body, "email").Some? && Text(body, "name").Some? && Text(body, "surname").Some?
       && "role_id" in body && body["role_id"].JNum? && code.Some? && contact.Some? && area.Some?
    then Some(User(Text(body, "google_id").value, Text(body, "email").value, Text(body, "name").value,
                   Text(body, "surname").value, code.value, contact.value, body["role_id"].n, area.value, {}))
    else None
  }

  /** The checks of create_employee in their order, then the commit. */
  function NewEmployee(users: map<Id, User>, roles: map<Id, Role>, areas: map<Id, Area>, skills: map<Id, Skill>,
                       id: Id, body: Body): (r: Result<User, Error>)
    ensures MissingKey(body).Some? ==> r == Err(Required(MissingKey(body).value))
    ensures MissingKey(body).None? && Clashes(users, body) ==> r == Err(UserExists)
    ensures MissingKey(body).None? && !Clashes(users, body) && !RoleFound(roles, body, "role_id")
            ==> r == Err(InvalidReference("role_id"))
    ensures MissingKey(body).None? && !Clashes(users, body) && RoleFound(roles, body, "role_id")
              && "area_of_responsibility_id" in body && Truthy(body["area_of_responsibility_id"])
              && !AreaFound(areas, body, "area_of_responsibility_id")
            ==> r == Err(InvalidReference("area_of_responsibility_id"))
    ensures r.Ok? ==> && !Clashes(users, body) && RoleFound(roles, body, "role_id")
                      && Storable(users, roles, areas, skills, id, r.value)
                      && r.value.skills == {}
                      && Text(body, "google_id") == Some(r.value.googleId) && Text(body, "email") == Some(r.value.email)
                      && Text(body, "name") == Some(r.value.name) && Text(body, "surname") == Some(r.value.surname)
                      && body["role_id"] == JNum(r.value.roleId)
    ensures r.Err? ==> r.error in {Required("google_id"), Required("email"), Required("name"), Required("surname"),
                                   Required("role_id"), UserExists, InvalidReference("role_id"),
                                   InvalidReference("area_of_responsibility_id"), Internal}
  {
    if MissingKey(body).Some? then Err(Required(MissingKey(body).value))
    else if Clashes(users, body) then Err(UserExists)
    else if !RoleFound(roles, body, "role_id") then Err(InvalidReference("role_id"))
    else if "area_of_responsibility_id" in body && Truthy(body["area_of_responsibility_id"])
            && !AreaFound(areas, body, "area_of_responsibility_id")
    then Err(InvalidReference("area_of_responsibility_id"))
    else
      match Built(body)
      case None => Err(Internal)
      case Some(u) => if Storable(users, roles, areas, skills, id, u) then Ok(u) else Err(Internal)
  }

  /** Creating a user with the google_id or email of an existing one is refused, so
      the two keys stay unique. */
  lemma ExistingKeyRefused(users: map<Id, User>, roles: map<Id, Role>, areas: map<Id, Area>, skills: map<Id, Skill>,
                           id: Id, body: Body, u: Id)
    requires MissingKey(body).None? && u in users
    requires body["google_id"] == JText(users[u].googleId) || body["email"] == JText(users[u].email)
    ensures NewEmployee(users, roles, areas, skills, id, body) == Err(UserExists)
  {
    assert Clashes(users, body);
  }

  /** create_employee. */
  method CreateEmployee(db: Database, uid: Id, body: Body) returns (r: Result<Id, Error>)
    requires db.Valid()
    modifies db
    ensures db.Valid()
    ensures old(PermissionRequired(db.users, db.roles, uid, ManageEmployees)).Err?
            ==> r == Err(old(PermissionRequired(db.users, db.roles, uid, ManageEmployees)).error)
    ensures old(PermissionRequired(db.users, db.roles, uid, ManageEmployees)).Ok?
            ==> match old(NewEmployee(db.users, db.roles, db.areas, db.skills, db.nextId, body))
                case Err(e) => r == Err(e)
                case Ok(u) => r == Ok(old(db.nextId)) && db.users == old(db.users)[old(db.nextId) := u]
    ensures r.Err? ==> db.Snapshot() == old(db.Snapshot())
    ensures r.Ok? ==> && r.value !in old(db.users)
                      && db.Snapshot() == old(db.Snapshot()).(users := db.users, nextId := old(db.nextId) + 1)
  {
    var gate := PermissionRequired(db.users, db.roles, uid, ManageEmployees);
    if gate.Err? {
      return Err(gate.error);
    }
    var id := db.nextId;
    var employee := NewEmployee(db.users, db.roles, db.areas, db.skills, id, body);
    if employee.Err? {
      return Err(employee.error);
    }
    StorableKeepsUsersValid(db.users, db.roles, db.areas, db.skills, id, employee.value);
    db.users := db.users[id := employee.value];
    db.nextId := db.nextId + 1;
    r := Ok(id);
  }

  // ---------------------------------------------------------------------------
  // Update

  /** The fields an Admin may change, in the order the loop visits them. */
  const AdminFields: seq<string> := ["email", "name", "surname", "employee_id", "contact_no", "role_id", "area_of_responsibility_id"]

  /** The one field an employee may change on their own record. */
  const SelfFields: seq<string> := ["contact_no"]

  /** Who may change what: a missing current user or role fails on `role_ref.name`;
      Admin gets every field, anybody else only their own contact number. */
  function UpdateAccess(users: map<Id, User>, roles: map<Id, Role>, uid: Id, id: Id): (r: Result<seq<string>, Error>)
    ensures r == Err(Internal) <==> RoleNameOf(users, roles, uid).None?
    ensures r == Ok(AdminFields) <==> RoleNameOf(users, roles, uid) == Some(Admin)
    ensures r == Ok(SelfFields) <==> RoleNameOf(users, roles, uid).Some? && RoleNameOf(users, roles, uid) != Some(Admin) && uid == id
    ensures r.Err? ==> r.error in {Internal, InsufficientPermissions}
  {
    match RoleNameOf(users, roles, uid)
    case None => Err(Internal)
    case Some(name) =>
      if name == Admin then Ok(AdminFields)
      else if uid == id then Ok(SelfFields)
      else Err(InsufficientPermissions)
  }

  /** The user under edit, and whether a value that its column cannot hold was
      assigned (the commit then fails). */
  datatype Draft = Draft(user: User, broken: bool)

  /** `setattr(employee, field, v)`. */
  function SetField(d: Draft, field: string, v: Json): (r: Draft)
    ensures field !in AdminFields ==> r == d
    ensures r.user.googleId == d.user.googleId && r.user.skills == d.user.skills
    ensures d.broken ==> r.broken
  {
    var u := d.user;
    if field == "email" then (if v.JText? then Draft(u.(email := v.t), d.broken) else Draft(u, true))
    else if field == "name" then (if v.JText? then Draft(u.(name := v.t), d.broken) else Draft(u, true))
    else if field == "surname" then (if v.JText? then Draft(u.(surname := v.t), d.broken) else Draft(u, true))
    else if field == "employee_id" then
      (if v.JText? then Draft(u.(employeeCode := Some(v.t)), d.broken)
       else if v.JNull? then Draft(u.(employeeCode := None), d.broken) else Draft(u, true))
    else if field == "contact_no" then
      (if v.JText? then Draft(u.(contactNo := Some(v.t)), d.broken)
       else if v.JNull? then Draft(u.(contactNo := None), d.broken) else Draft(u, true))
    else if field == "role_id" then (if v.JNum? then Draft(u.(roleId := v.n), d.broken) else Draft(u, true))
    else if field == "area_of_responsibility_id" then
      (if v.JNum? then Draft(u.(areaId := Some(v.n)), d.broken)
       else if v.JNull? then Draft(u.(areaId := None), d.broken) else Draft(u, true))
    else d
  }

  /** The draft can be written out: every value fits its column and the schema rules hold.
      Both the commit and an autoflush write it. */
  predicate Flushable(users: map<Id, User>, roles: map<Id, Role>, areas: map<Id, Area>, skills: map<Id, Skill>,
                      id: Id, d: Draft) {
    !d.broken && Storable(users, roles, areas, skills, id, d.user)
  }

  /** One turn of the update loop: a supplied field is checked (a truthy role or area id
      must name a stored record) and assigned. An id that names no record is never in the
      session, so its lookup queries the database and first autoflushes the draft; when the
      draft cannot be written, that flush raises and the request ends in 500 instead of the
      400 for the bad reference. */
  function UpdateStep(users: map<Id, User>, roles: map<Id, Role>, areas: map<Id, Area>, skills: map<Id, Skill>,
                      id: Id, d: Draft, field: string, body: Body): Result<Draft, Error> {
    if field !in body then Ok(d)
    else if field == "role_id" && Truthy(body[field]) && !RoleFound(roles, body, field) then
      (if Flushable(users, roles, areas, skills, id, d) then Err(InvalidReference("role_id")) else Err(Internal))
    else if field == "area_of_responsibility_id" && Truthy(body[field]) && !AreaFound(areas, body, field) then
      (if Flushable(users, roles, areas, skills, id, d) then Err(InvalidReference("area_of_responsibility_id")) else Err(Internal))
    else Ok(SetField(d, field, body[field]))
  }

  /** The update loop over `fields`, as a fold over its prefixes. */
  function ApplyFields(users: map<Id, User>, roles: map<Id, Role>, areas: map<Id, Area>, skills: map<Id, Skill>,
                       id: Id, d: Draft, fields: seq<string>, body: Body): Result<Draft, Error>
    decreases |fields|
  {
    if fields == [] then Ok(d)
    else
      match ApplyFields(users, roles, areas, skills, id, d, fields[..|fields| - 1], body)
      case Err(e) => Err(e)
      case Ok(d') => UpdateStep(users, roles, areas, skills, id, d', fields[|fields| - 1], body)
  }

  /** The body restricted to the keys in `fields`. */
  function Only(body: Body, fields: seq<string>): (r: Body)
    ensures forall k :: k in r <==> k in body && k in fields
  {
    map k | k in body && k in fields :: body[k]
  }

  /** Keys outside the allowed list are silently ignored: the loop sees only the allowed ones. */
  lemma {:induction false} UnlistedKeysIgnored(users: map<Id, User>, roles: map<Id, Role>, areas: map<Id, Area>, skills: map<Id, Skill>, id: Id, d: Draft,
                                              fields: seq<string>, prefix: seq<string>, body: Body)
    requires forall k :: k in prefix ==> k in fields
    ensures ApplyFields(users, roles, areas, skills, id, d, prefix, body) == ApplyFields(users, roles, areas, skills, id, d, prefix, Only(body, fields))
    decreases |prefix|
  {
    if prefix != [] {
      var init := prefix[..|prefix| - 1];
      var last := prefix[|prefix| - 1];
      assert forall k :: k in init ==> k in prefix;
      UnlistedKeysIgnored(users, roles, areas, skills, id, d, fields, init, body);
      assert last in fields;
    }
  }

  /** The update a non-admin may make to their own record changes the contact number
      and nothing else, and never fails before the commit. */
  lemma SelfUpdateOnlyContact(users: map<Id, User>, roles: map<Id, Role>, areas: map<Id, Area>, skills: map<Id, Skill>, id: Id, u: User, body: Body)
    ensures var r := ApplyFields(users, roles, areas, skills, id, Draft(u, false), SelfFields, body);
            && r.Ok?
            && r.value.user == u.(contactNo := r.value.user.contactNo)
            && ("contact_no" !in body ==> r.value.user == u)
  {
    assert SelfFields[..0] == [];
  }

  /** With every value of the right type and existing references, an Admin's update sets
      each supplied field to the value given. */
  lemma {:induction false} AdminUpdateSetsFields(users: map<Id, User>, roles: map<Id, Role>, areas: map<Id, Area>, skills: map<Id, Skill>, id: Id, u: User,
                                                  email: string, roleId: Id)
    requires roleId in roles
    ensures var body := map["email" := JText(email), "role_id" := JNum(roleId), "password" := JText("x")];
            ApplyFields(users, roles, areas, skills, id, Draft(u, false), AdminFields, body) == Ok(Draft(u.(email := email, roleId := roleId), false))
  {
    var body := map["email" := JText(email), "role_id" := JNum(roleId), "password" := JText("x")];
    var d0 := Draft(u, false);
    var d1 := Draft(u.(email := email), false);
    var d6 := Draft(u.(email := email, roleId := roleId), false);
    assert ApplyFields(users, roles, areas, skills, id, d0, AdminFields[..1], body) == Ok(d1) by {
      assert AdminFields[..1][..0] == [];
    }
    assert AdminFields[..2][..1] == AdminFields[..1];
    assert AdminFields[..3][..2] == AdminFields[..2];
    assert AdminFields[..4][..3] == AdminFields[..3];
    assert AdminFields[..5][..4] == AdminFields[..4];
    assert AdminFields[..6][..5] == AdminFields[..5];
    assert AdminFields[..7][..6] == AdminFields[..6];
    assert ApplyFields(users, roles, areas, skills, id, d0, AdminFields[..2], body) == Ok(d1);
    assert ApplyFields(users, roles, areas, skills, id, d0, AdminFields[..3], body) == Ok(d1);
    assert ApplyFields(users, roles, areas, skills, id, d0, AdminFields[..4], body) == Ok(d1);
    assert ApplyFields(users, roles, areas, skills, id, d0, AdminFields[..5], body) == Ok(d1);
    assert ApplyFields(users, roles, areas, skills, id, d0, AdminFields[..6], body) == Ok(d6);
    assert AdminFields[..7] == AdminFields;
  }

  /** An Admin update that clears the name and names a missing role fails with 500, not 400:
      the role lookup autoflushes the draft, whose NULL name its column refuses. */
  lemma {:induction false} UnfitValueMasksBadRole(users: map<Id, User>, roles: map<Id, Role>, areas: map<Id, Area>,
                                                   skills: map<Id, Skill>, id: Id, u: User, roleId: Id)
    requires roleId != 0 && roleId !in roles
    ensures var body := map["name" := JNull, "role_id" := JNum(roleId)];
            ApplyFields(users, roles, areas, skills, id, Draft(u, false), AdminFields, body) == Err(Internal)
  {
    var body := map["name" := JNull, "role_id" := JNum(roleId)];
    var d0 := Draft(u, false);
    var d2 := Draft(u, true);
    assert ApplyFields(users, roles, areas, skills, id, d0, AdminFields[..1], body) == Ok(d0) by {
      assert AdminFields[..1][..0] == [];
    }
    assert AdminFields[..2][..1] == AdminFields[..1];
    assert AdminFields[..3][..2] == AdminFields[..2];
    assert AdminFields[..4][..3] == AdminFields[..3];
    assert AdminFields[..5][..4] == AdminFields[..4];
    assert AdminFields[..6][..5] == AdminFields[..5];
    assert ApplyFields(users, roles, areas, skills, id, d0, AdminFields[..2], body) == Ok(d2);
    assert ApplyFields(users, roles, areas, skills, id, d0, AdminFields[..3], body) == Ok(d2);
    assert ApplyFields(users, roles, areas, skills, id, d0, AdminFields[..4], body) == Ok(d2);
    assert ApplyFields(users, roles, areas, skills, id, d0, AdminFields[..5], body) == Ok(d2);
    assert ApplyFields(users, roles, areas, skills, id, d0, AdminFields[..6], body) == Err(Internal);
    FailureSticks(users, roles, areas, skills, id, d0, AdminFields, 6, body);
  }

  /** update_employee: look the employee up, decide the allowed fields, run the loop,
      commit (which fails if a value did not fit or the schema rules break). */
  method UpdateEmployee(db: Database, uid: Id, id: Id, body: Body) returns (r: Result<Id, Error>)
    requires db.Valid()
    modifies db
    ensures db.Valid()
    ensures id !in old(db.users) ==> r == Err(NotFound("Employee"))
    ensures id in old(db.users) && old(UpdateAccess(db.users, db.roles, uid, id)).Err?
            ==> r == Err(old(UpdateAccess(db.users, db.roles, uid, id)).error)
    ensures id in old(db.users) && old(UpdateAccess(db.users, db.roles, uid, id)).Ok?
            ==> match old(ApplyFields(db.users, db.roles, db.areas, db.skills, id, Draft(db.users[id], false), UpdateAccess(db.users, db.roles, uid, id).value, body))
                case Err(e) => r == Err(e)
                case Ok(d) =>
                  if old(Flushable(db.users, db.roles, db.areas, db.skills, id, d))
                  then r == Ok(id) && db.users == old(db.users)[id := d.user]
                  else r == Err(Internal)
    ensures r.Err? ==> db.Snapshot() == old(db.Snapshot())
    ensures db.Snapshot() == old(db.Snapshot()).(users := db.users)
  {
    if id !in db.users {
      return Err(NotFound("Employee"));
    }
    var access := UpdateAccess(db.users, db.roles, uid, id);
    if access.Err? {
      return Err(access.error);
    }
    var allowed := access.value;
    var applied := UpdateFields(db.users, db.roles, db.areas, db.skills, id, Draft(db.users[id], false), allowed, body);
    if applied.Err? {
      return Err(applied.error);
    }
    var draft := applied.value;
    if !Flushable(db.users, db.roles, db.areas, db.skills, id, draft) {
      return Err(Internal);
    }
    StorableKeepsUsersValid(db.users, db.roles, db.areas, db.skills, id, draft.user);
    db.users := db.users[id := draft.user];
    r := Ok(id);
  }

  /** The first failure of the loop is its outcome: the fields after it are not looked at. */
  lemma {:induction false} FailureSticks(users: map<Id, User>, roles: map<Id, Role>, areas: map<Id, Area>, skills: map<Id, Skill>, id: Id, d: Draft, fields: seq<string>,
                                         i: nat, body: Body)
    requires i <= |fields| && ApplyFields(users, roles, areas, skills, id, d, fields[..i], body).Err?
    ensures ApplyFields(users, roles, areas, skills, id, d, fields, body) == ApplyFields(users, roles, areas, skills, id, d, fields[..i], body)
    decreases |fields| - i
  {
    if i < |fields| {
      assert fields[..i + 1][..i] == fields[..i];
      FailureSticks(users, roles, areas, skills, id, d, fields, i + 1, body);
    } else {
      assert fields[..i] == fields;
    }
  }

  /** The loop of update_employee: each allowed field that the body supplies is checked
      and assigned in turn; the first bad role or area reference stops it. */
  method UpdateFields(users: map<Id, User>, roles: map<Id, Role>, areas: map<Id, Area>, skills: map<Id, Skill>, id: Id, d0: Draft, allowed: seq<string>, body: Body)
    returns (r: Result<Draft, Error>)
    ensures r == ApplyFields(users, roles, areas, skills, id, d0, allowed, body)
  {
    var draft := d0;
    var i := 0;
    while i < |allowed|
      invariant 0 <= i <= |allowed|
      invariant ApplyFields(users, roles, areas, skills, id, d0, allowed[..i], body) == Ok(draft)
    {
      var field := allowed[i];
      assert allowed[..i + 1][..i] == allowed[..i];
      if field in body {
        if field == "role_id" && Truthy(body[field]) && !RoleFound(roles, body, field) {
          FailureSticks(users, roles, areas, skills, id, d0, allowed, i + 1, body);
          if !Flushable(users, roles, areas, skills, id, draft) {
            return Err(Internal);
          }
          return Err(InvalidReference("role_id"));
        }
        if field == "area_of_responsibility_id" && Truthy(body[field]) && !AreaFound(areas, body, field) {
          FailureSticks(users, roles, areas, skills, id, d0, allowed, i + 1, body);
          if !Flushable(users, roles, areas, skills, id, draft) {
            return Err(Internal);
          }
          return Err(InvalidReference("area_of_responsibility_id"));
        }
        draft := SetField(draft, field, body[field]);
      }
      i := i + 1;
    }
    assert allowed[..i] == allowed;
    r := Ok(draft);
  }

  // ---------------------------------------------------------------------------
  // Deletion

  /** The employee has roster entries or timesheets. */
  predicate HasRecords(rosters: map<Id, RosterEntry>, timesheets: map<Id, Timesheet>, id: Id) {
    (exists k :: k in rosters && rosters[k].employeeId == id) || (exists k :: k in timesheets && timesheets[k].employeeId == id)
  }

  /** The employee has leave requests: deleting them would null a NOT NULL column. */
  predicate HasLeaves(leaves: map<Id, LeaveRequest>, id: Id) {
    exists k :: k in leaves && leaves[k].employeeId == id
  }

  /** The ORM sets `approved_by` to NULL on the records the deleted user approved;
      `approver` reads a record's approver and `clear` empties it. The three
      approval tables (roster entries, timesheets, leave requests) are instances. */
  function ForgetApprover<T(!new)>(m: map<Id, T>, approver: T -> Option<Id>, clear: T -> T, id: Id): (r: map<Id, T>)
    requires forall e :: approver(clear(e)).None?
    ensures r.Keys == m.Keys
    ensures forall k :: k in r ==> approver(r[k]) != Some(id)
    ensures forall k :: k in r && approver(m[k]) == Some(id) ==> r[k] == clear(m[k])
    ensures forall k :: k in r && approver(m[k]) != Some(id) ==> r[k] == m[k]
  {
    map k | k in m :: if approver(m[k]) == Some(id) then clear(m[k]) else m[k]
  }

  function ForgetRosterApprover(rosters: map<Id, RosterEntry>, id: Id): map<Id, RosterEntry> {
    ForgetApprover(rosters, (e: RosterEntry) => e.approvedBy, (e: RosterEntry) => e.(approvedBy := None), id)
  }

  function ForgetTimesheetApprover(timesheets: map<Id, Timesheet>, id: Id): map<Id, Timesheet> {
    ForgetApprover(timesheets, (t: Timesheet) => t.approvedBy, (t: Timesheet) => t.(approvedBy := None), id)
  }

  function ForgetLeaveApprover(leaves: map<Id, LeaveRequest>, id: Id): map<Id, LeaveRequest> {
    ForgetApprover(leaves, (l: LeaveRequest) => l.approvedBy, (l: LeaveRequest) => l.(approvedBy := None), id)
  }

  /** After the deletion no record refers to the deleted user any more. */
  lemma {:induction false} DeletionLeavesNoDanglingRefs(users: map<Id, User>, shifts: map<Id, Shift>,
                                                        rosters: map<Id, RosterEntry>, timesheets: map<Id, Timesheet>,
                                                        leaves: map<Id, LeaveRequest>, id: Id)
    requires RostersReferToStore(rosters, users, shifts) && TimesheetsReferToStore(timesheets, users, rosters)
    requires LeavesReferToStore(leaves, users)
    requires !HasRecords(rosters, timesheets, id) && !HasLeaves(leaves, id)
    ensures RostersReferToStore(ForgetRosterApprover(rosters, id), users - {id}, shifts)
    ensures TimesheetsReferToStore(ForgetTimesheetApprover(timesheets, id), users - {id}, ForgetRosterApprover(rosters, id))
    ensures LeavesReferToStore(ForgetLeaveApprover(leaves, id), users - {id})
  {
    var rs := ForgetRosterApprover(rosters, id);
    forall k | k in rs ensures rs[k].employeeId in users - {id} && ApproverKnown(rs[k].approvedBy, users - {id}) {
      assert rosters[k].employeeId != id;
    }
    var ts := ForgetTimesheetApprover(timesheets, id);
    forall k | k in ts ensures ts[k].employeeId in users - {id} && ApproverKnown(ts[k].approvedBy, users - {id}) {
      assert timesheets[k].employeeId != id;
    }
    var ls := ForgetLeaveApprover(leaves, id);
    forall k | k in ls ensures ls[k].employeeId in users - {id} {
      assert leaves[k].employeeId != id;
    }
  }

  /** delete_employee: refused while the employee has roster entries or timesheets; the
      commit fails while they have leave requests. */
  method DeleteEmployee(db: Database, uid: Id, id: Id) returns (r: Result<Id, Error>)
    requires db.Valid()
    modifies db
    ensures db.Valid()
    ensures old(PermissionRequired(db.users, db.roles, uid, ManageEmployees)).Err?
            ==> r == Err(old(PermissionRequired(db.users, db.roles, uid, ManageEmployees)).error)
    ensures old(PermissionRequired(db.users, db.roles, uid, ManageEmployees)).Ok? && id !in old(db.users)
            ==> r == Err(NotFound("Employee"))
    ensures old(PermissionRequired(db.users, db.roles, uid, ManageEmployees)).Ok? && id in old(db.users)
              && old(HasRecords(db.rosters, db.timesheets, id))
            ==> r == Err(InUse("employee"))
    ensures old(PermissionRequired(db.users, db.roles, uid, ManageEmployees)).Ok? && id in old(db.users)
              && !old(HasRecords(db.rosters, db.timesheets, id)) && old(HasLeaves(db.leaves, id))
            ==> r == Err(Internal)
    ensures r.Ok? <==> && old(PermissionRequired(db.users, db.roles, uid, ManageEmployees)).Ok? && id in old(db.users)
                       && !old(HasRecords(db.rosters, db.timesheets, id)) && !old(HasLeaves(db.leaves, id))
    ensures r.Err? ==> db.Snapshot() == old(db.Snapshot())
    ensures r.Ok? ==> db.Snapshot() == old(db.Snapshot()).(users := old(db.users) - {id},
                                                            rosters := ForgetRosterApprover(old(db.rosters), id),
                                                            timesheets := ForgetTimesheetApprover(old(db.timesheets), id),
                                                            leaves := ForgetLeaveApprover(old(db.leaves), id))
  {
    var gate := PermissionRequired(db.users, db.roles, uid, ManageEmployees);
    if gate.Err? {
      return Err(gate.error);
    }
    if id !in db.users {
      return Err(NotFound("Employee"));
    }
    if HasRecords(db.rosters, db.timesheets, id) {
      return Err(InUse("employee"));
    }
    if HasLeaves(db.leaves, id) {
      return Err(Internal);
    }
    DeletionLeavesNoDanglingRefs(db.users, db.shifts, db.rosters, db.timesheets, db.leaves, id);
    db.users := db.users - {id};
    db.rosters := ForgetRosterApprover(db.rosters, id);
    db.timesheets := ForgetTimesheetApprover(db.timesheets, id);
    db.leaves := ForgetLeaveApprover(db.leaves, id);
    r := Ok(id);
  }

  // ---------------------------------------------------------------------------
  // Skills of an employee

  /** The `skill_id` of the body as add_employee_skill reads it: a truthy integer. */
  function SkillParam(body: Body): (r: Option<Id>)
    ensures r.Some? <==> "skill_id" in body && Truthy(body["skill_id"]) && body["skill_id"].JNum?
  {
    if "skill_id" in body && body["skill_id"].JNum? && body["skill_id"].n != 0 then Some(body["skill_id"].n) else None
  }

  /** add_employee_skill: afterwards the employee holds the skill, and exactly the skills
      held before besides it. */
  method AddEmployeeSkill(db: Database, uid: Id, id: Id, body: Body) returns (r: Result<Id, Error>)
    requires db.Valid()
    modifies db
    ensures db.Valid()
    ensures old(PermissionRequired(db.users, db.roles, uid, ManageEmployees)).Err?
            ==> r == Err(old(PermissionRequired(db.users, db.roles, uid, ManageEmployees)).error)
    ensures old(PermissionRequired(db.users, db.roles, uid, ManageEmployees)).Ok? && id !in old(db.users)
            ==> r == Err(NotFound("Employee"))
    ensures old(PermissionRequired(db.users, db.roles, uid, ManageEmployees)).Ok? && id in old(db.users)
              && !("skill_id" in body && Truthy(body["skill_id"]))
            ==> r == Err(Required("skill_id"))
    ensures old(PermissionRequired(db.users, db.roles, uid, ManageEmployees)).Ok? && id in old(db.users)
              && "skill_id" in body && Truthy(body["skill_id"])
              && (SkillParam(body).None? || SkillParam(body).value !in old(db.skills))
            ==> r == Err(NotFound("Skill"))
    ensures old(PermissionRequired(db.users, db.roles, uid, ManageEmployees)).Ok? && id in old(db.users)
              && SkillParam(body).Some? && SkillParam(body).value in old(db.skills)
              && SkillParam(body).value in old(db.users[id].skills)
            ==> r == Err(SkillAlreadyHeld)
    ensures r.Ok? <==> && old(PermissionRequired(db.users, db.roles, uid, ManageEmployees)).Ok? && id in old(db.users)
                       && SkillParam(body).Some? && SkillParam(body).value in old(db.skills)
                       && SkillParam(body).value !in old(db.users[id].skills)
    ensures r.Err? ==> db.Snapshot() == old(db.Snapshot())
    ensures r.Ok? ==> && db.users == old(db.users)[id := old(db.users[id]).(skills := old(db.users[id].skills) + {SkillParam(body).value})]
                      && db.Snapshot() == old(db.Snapshot()).(users := db.users)
  {
    var gate := PermissionRequired(db.users, db.roles, uid, ManageEmployees);
    if gate.Err? {
      return Err(gate.error);
    }
    if id !in db.users {
      return Err(NotFound("Employee"));
    }
    if !("skill_id" in body && Truthy(body["skill_id"])) {
      return Err(Required("skill_id"));
    }
    var skill := SkillParam(body);
    if skill.None? || skill.value !in db.skills {
      return Err(NotFound("Skill"));
    }
    var employee := db.users[id];
    if skill.value in employee.skills {
      return Err(SkillAlreadyHeld);
    }
    db.users := db.users[id := employee.(skills := employee.skills + {skill.value})];
    r := Ok(id);
  }

  /** remove_employee_skill: afterwards the employee no longer holds the skill and
      keeps every other one. */
  method RemoveEmployeeSkill(db: Database, uid: Id, id: Id, skill: Id) returns (r: Result<Id, Error>)
    requires db.Valid()
    modifies db
    ensures db.Valid()
    ensures old(PermissionRequired(db.users, db.roles, uid, ManageEmployees)).Err?
            ==> r == Err(old(PermissionRequired(db.users, db.roles, uid, ManageEmployees)).error)
    ensures old(PermissionRequired(db.users, db.roles, uid, ManageEmployees)).Ok? && id !in old(db.users)
            ==> r == Err(NotFound("Employee"))
    ensures old(PermissionRequired(db.users, db.roles, uid, ManageEmployees)).Ok? && id in old(db.users)
              && skill !in old(db.skills)
            ==> r == Err(NotFound("Skill"))
    ensures old(PermissionRequired(db.users, db.roles, uid, ManageEmployees)).Ok? && id in old(db.users)
              && skill in old(db.skills) && skill !in old(db.users[id].skills)
            ==> r == Err(SkillNotHeld)
    ensures r.Ok? <==> && old(PermissionRequired(db.users, db.roles, uid, ManageEmployees)).Ok? && id in old(db.users)
                       && skill in old(db.skills) && skill in old(db.users[id].skills)
    ensures r.Err? ==> db.Snapshot() == old(db.Snapshot())
    ensures r.Ok? ==> && db.users == old(db.users)[id := old(db.users[id]).(skills := old(db.users[id].skills) - {skill})]
                      && db.Snapshot() == old(db.Snapshot()).(users := db.users)
  {
    var gate := PermissionRequired(db.users, db.roles, uid, ManageEmployees);
    if gate.Err? {
      return Err(gate.error);
    }
    if id !in db.users {
      return Err(NotFound("Employee"));
    }
    if skill !in db.skills {
      return Err(NotFound("Skill"));
    }
    var employee := db.users[id];
    if skill !in employee.skills {
      return Err(SkillNotHeld);
    }
    db.users := db.users[id := employee.(skills := employee.skills - {skill})];
    r := Ok(id);
  }

  /** Adding a skill the employee lacks and removing it again restores the employee. */
  lemma AddThenRemoveRestores(u: User, s: Id)
    requires s !in u.skills
    ensures u.(skills := u.skills + {s}).(skills := u.skills + {s} - {s}) == u
  {
    assert u.skills + {s} - {s} == u.skills;
  }
}
