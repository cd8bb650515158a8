/** Reference-data management: create, update and delete of roles, areas of
    responsibility, skills and shift types. Each handler is guarded by its
    `manage_*` permission, keeps names unique (a rename only clashes with a
    different record), and refuses to delete a record that is still referenced. */
module Admin {
  import opened Common
  import opened Models
  import opened Decorators

  const ManageRoles: string := "manage_roles"
  const ManageAreas: string := "manage_areas"
  const ManageSkills: string := "manage_skills"
  const ManageShifts: string := "manage_shifts"

  /** The JSON body of a role request; None is a key that is absent. */
  datatype RoleFields = RoleFields(name: Option<string>, permissions: Option<Permissions>)

  /** The JSON body of an area or skill request. */
  datatype CatalogFields = CatalogFields(name: Option<string>, description: Option<string>)

  /** The JSON body of a shift request. */
  datatype ShiftFields = ShiftFields(
    name: Option<string>,
    startTime: Option<TimeParam>,
    endTime: Option<TimeParam>,
    hours: Option<real>,
    description: Option<string>,
    color: Option<string>)

  // ---------------------------------------------------------------------------
  // Name clashes: a record other than `except` already carries the name.

  predicate RoleNameTaken(roles: map<Id, Role>, name: string, except: Option<Id>) {
    exists k :: k in roles && roles[k].name == name && except != Some(k)
  }

  predicate AreaNameTaken(areas: map<Id, Area>, name: string, except: Option<Id>) {
    exists k :: k in areas && areas[k].name == name && except != Some(k)
  }

  predicate SkillNameTaken(skills: map<Id, Skill>, name: string, except: Option<Id>) {
    exists k :: k in skills && skills[k].name == name && except != Some(k)
  }

  predicate ShiftNameTaken(shifts: map<Id, Shift>, name: string, except: Option<Id>) {
    exists k :: k in shifts && shifts[k].name == name && except != Some(k)
  }

  /** With unique names, renaming a record to the name it already has is never a clash. */
  lemma {:induction false} OwnNameIsFree(roles: map<Id, Role>, areas: map<Id, Area>, skills: map<Id, Skill>,
                                         shifts: map<Id, Shift>, id: Id)
    requires UniqueRoleNames(roles) && UniqueAreaNames(areas) && UniqueSkillNames(skills) && UniqueShiftNames(shifts)
    ensures id in roles ==> !RoleNameTaken(roles, roles[id].name, Some(id))
    ensures id in areas ==> !AreaNameTaken(areas, areas[id].name, Some(id))
    ensures id in skills ==> !SkillNameTaken(skills, skills[id].name, Some(id))
    ensures id in shifts ==> !ShiftNameTaken(shifts, shifts[id].name, Some(id))
  {
  }

  // ---------------------------------------------------------------------------
  // Roles

  /** The checks and the record of create_role. */
  function NewRole(roles: map<Id, Role>, f: RoleFields): (r: Result<Role, Error>)
    ensures f.name.None? ==> r == Err(Required("name"))
    ensures f.name.Some? ==> (r.Ok? <==> !RoleNameTaken(roles, f.name.value, None))
    ensures r.Err? ==> r.error in {Required("name"), NameTaken("Role")}
    ensures r.Ok? ==> r.value.name == f.name.value && r.value.permissions == Some(f.permissions.GetOr(map[]))
  {
    if f.name.None? then Err(Required("name"))
    else if RoleNameTaken(roles, f.name.value, None) then Err(NameTaken("Role"))
    else Ok(Role(f.name.value, Some(f.permissions.GetOr(map[]))))
  }

  /** The checks and the changes of update_role on the role `id`. */
  function PatchRole(roles: map<Id, Role>, id: Id, f: RoleFields): (r: Result<Role, Error>)
    requires id in roles
    ensures r.Ok? <==> !(f.name.Some? && RoleNameTaken(roles, f.name.value, Some(id)))
    ensures r.Err? ==> r.error == NameTaken("Role")
    ensures r.Ok? ==> r.value.name == f.name.GetOr(roles[id].name)
    ensures r.Ok? ==> r.value.permissions == (if f.permissions.Some? then f.permissions else roles[id].permissions)
  {
    if f.name.Some? && RoleNameTaken(roles, f.name.value, Some(id)) then Err(NameTaken("Role"))
    else
      var named := if f.name.Some? then roles[id].(name := f.name.value) else roles[id];
      Ok(if f.permissions.Some? then named.(permissions := f.permissions) else named)
  }

  /** A created role's name is taken from then on: a second create with it fails. */
  lemma CreatedRoleNameTaken(roles: map<Id, Role>, f: RoleFields, id: Id, g: RoleFields)
    requires NewRole(roles, f).Ok? && g.name == f.name
    ensures NewRole(roles[id := NewRole(roles, f).value], g) == Err(NameTaken("Role"))
  {
    assert roles[id := NewRole(roles, f).value][id].name == f.name.value;
  }

  /** Some user has role `id`. */
  predicate RoleInUse(users: map<Id, User>, id: Id) {
    exists u :: u in users && users[u].roleId == id
  }

  /** create_role. */
  method CreateRole(db: Database, uid: Id, f: RoleFields) returns (r: Result<Id, Error>)
    requires db.Valid()
    modifies db
    ensures db.Valid()
    ensures old(PermissionRequired(db.users, db.roles, uid, ManageRoles)).Err?
            ==> r == Err(old(PermissionRequired(db.users, db.roles, uid, ManageRoles)).error)
    ensures old(PermissionRequired(db.users, db.roles, uid, ManageRoles)).Ok? && old(NewRole(db.roles, f)).Err?
            ==> r == Err(old(NewRole(db.roles, f)).error)
    ensures r.Ok? <==> old(PermissionRequired(db.users, db.roles, uid, ManageRoles)).Ok? && old(NewRole(db.roles, f)).Ok?
    ensures r.Err? ==> db.Snapshot() == old(db.Snapshot())
    ensures r.Ok? ==> && r.value !in old(db.roles)
                      && db.Snapshot() == old(db.Snapshot()).(roles := old(db.roles)[r.value := old(NewRole(db.roles, f)).value],
                                                              nextId := old(db.nextId) + 1)
  {
    var gate := PermissionRequired(db.users, db.roles, uid, ManageRoles);
    if gate.Err? {
      return Err(gate.error);
    }
    var role := NewRole(db.roles, f);
    if role.Err? {
      return Err(role.error);
    }
    var id := db.nextId;
    db.roles := db.roles[id := role.value];
    db.nextId := db.nextId + 1;
    r := Ok(id);
  }

  /** update_role. */
  method UpdateRole(db: Database, uid: Id, id: Id, f: RoleFields) returns (r: Result<Id, Error>)
    requires db.Valid()
    modifies db
    ensures db.Valid()
    ensures old(PermissionRequired(db.users, db.roles, uid, ManageRoles)).Err?
            ==> r == Err(old(PermissionRequired(db.users, db.roles, uid, ManageRoles)).error)
    ensures old(PermissionRequired(db.users, db.roles, uid, ManageRoles)).Ok? && id !in old(db.roles)
            ==> r == Err(NotFound("Role"))
    ensures old(PermissionRequired(db.users, db.roles, uid, ManageRoles)).Ok? && id in old(db.roles)
            ==> match old(PatchRole(db.roles, id, f))
                case Err(e) => r == Err(e)
                case Ok(role) => r == Ok(id) && db.roles == old(db.roles)[id := role]
    ensures r.Err? ==> db.Snapshot() == old(db.Snapshot())
    ensures db.Snapshot() == old(db.Snapshot()).(roles := db.roles)
  {
    var gate := PermissionRequired(db.users, db.roles, uid, ManageRoles);
    if gate.Err? {
      return Err(gate.error);
    }
    if id !in db.roles {
      return Err(NotFound("Role"));
    }
    var role := db.roles[id];
    ghost var patched := PatchRole(db.roles, id, f);
    if f.name.Some? {
      if RoleNameTaken(db.roles, f.name.value, Some(id)) {
        return Err(NameTaken("Role"));
      }
      role := role.(name := f.name.value);
    }
    if f.permissions.Some? {
      role := role.(permissions := f.permissions);
    }
    assert patched == Ok(role);
    db.roles := db.roles[id := role];
    r := Ok(id);
  }

  /** delete_role: refused while a user has the role. */
  method DeleteRole(db: Database, uid: Id, id: Id) returns (r: Result<Id, Error>)
    requires db.Valid()
    modifies db
    ensures db.Valid()
    ensures old(PermissionRequired(db.users, db.roles, uid, ManageRoles)).Err?
            ==> r == Err(old(PermissionRequired(db.users, db.roles, uid, ManageRoles)).error)
    ensures old(PermissionRequired(db.users, db.roles, uid, ManageRoles)).Ok? && id !in old(db.roles)
            ==> r == Err(NotFound("Role"))
    ensures old(PermissionRequired(db.users, db.roles, uid, ManageRoles)).Ok? && id in old(db.roles)
              && RoleInUse(old(db.users), id)
            ==> r == Err(InUse("role"))
    ensures r.Ok? <==> old(PermissionRequired(db.users, db.roles, uid, ManageRoles)).Ok? && id in old(db.roles)
                       && !RoleInUse(old(db.users), id)
    ensures r.Err? ==> db.Snapshot() == old(db.Snapshot())
    ensures r.Ok? ==> db.Snapshot() == old(db.Snapshot()).(roles := old(db.roles) - {id})
  {
    var gate := PermissionRequired(db.users, db.roles, uid, ManageRoles);
    if gate.Err? {
      return Err(gate.error);
    }
    if id !in db.roles {
      return Err(NotFound("Role"));
    }
    if RoleInUse(db.users, id) {
      return Err(InUse("role"));
    }
    db.roles := db.roles - {id};
    r := Ok(id);
  }

  // ---------------------------------------------------------------------------
  // Areas of responsibility

  /** The checks and the record of create_area; the description defaults to empty. */
  function NewArea(areas: map<Id, Area>, f: CatalogFields): (r: Result<Area, Error>)
    ensures f.name.None? ==> r == Err(Required("name"))
    ensures f.name.Some? ==> (r.Ok? <==> !AreaNameTaken(areas, f.name.value, None))
    ensures r.Err? ==> r.error in {Required("name"), NameTaken("Area")}
    ensures r.Ok? ==> r.value.name == f.name.value && r.value.description == f.description.GetOr("")
  {
    if f.name.None? then Err(Required("name"))
    else if AreaNameTaken(areas, f.name.value, None) then Err(NameTaken("Area"))
    else Ok(Area(f.name.value, f.description.GetOr("")))
  }

  function PatchArea(areas: map<Id, Area>, id: Id, f: CatalogFields): (r: Result<Area, Error>)
    requires id in areas
    ensures r.Ok? <==> !(f.name.Some? && AreaNameTaken(areas, f.name.value, Some(id)))
    ensures r.Err? ==> r.error == NameTaken("Area")
    ensures r.Ok? ==> r.value.name == f.name.GetOr(areas[id].name)
                      && r.value.description == f.description.GetOr(areas[id].description)
  {
    if f.name.Some? && AreaNameTaken(areas, f.name.value, Some(id)) then Err(NameTaken("Area"))
    else
      var named := if f.name.Some? then areas[id].(name := f.name.value) else areas[id];
      Ok(if f.description.Some? then named.(description := f.description.value) else named)
  }

  /** Some user works in area `id`. */
  predicate AreaInUse(users: map<Id, User>, id: Id) {
    exists u :: u in users && users[u].areaId == Some(id)
  }

  /** create_area. */
  method CreateArea(db: Database, uid: Id, f: CatalogFields) returns (r: Result<Id, Error>)
    requires db.Valid()
    modifies db
    ensures db.Valid()
    ensures old(PermissionRequired(db.users, db.roles, uid, ManageAreas)).Err?
            ==> r == Err(old(PermissionRequired(db.users, db.roles, uid, ManageAreas)).error)
    ensures old(PermissionRequired(db.users, db.roles, uid, ManageAreas)).Ok? && old(NewArea(db.areas, f)).Err?
            ==> r == Err(old(NewArea(db.areas, f)).error)
    ensures r.Ok? <==> old(PermissionRequired(db.users, db.roles, uid, ManageAreas)).Ok? && old(NewArea(db.areas, f)).Ok?
    ensures r.Err? ==> db.Snapshot() == old(db.Snapshot())
    ensures r.Ok? ==> && r.value !in old(db.areas)
                      && db.Snapshot() == old(db.Snapshot()).(areas := old(db.areas)[r.value := old(NewArea(db.areas, f)).value],
                                                              nextId := old(db.nextId) + 1)
  {
    var gate := PermissionRequired(db.users, db.roles, uid, ManageAreas);
    if gate.Err? {
      return Err(gate.error);
    }
    var area := NewArea(db.areas, f);
    if area.Err? {
      return Err(area.error);
    }
    var id := db.nextId;
    db.areas := db.areas[id := area.value];
    db.nextId := db.nextId + 1;
    r := Ok(id);
  }

  /** update_area. */
  method UpdateArea(db: Database, uid: Id, id: Id, f: CatalogFields) returns (r: Result<Id, Error>)
    requires db.Valid()
    modifies db
    ensures db.Valid()
    ensures old(PermissionRequired(db.users, db.roles, uid, ManageAreas)).Err?
            ==> r == Err(old(PermissionRequired(db.users, db.roles, uid, ManageAreas)).error)
    ensures old(PermissionRequired(db.users, db.roles, uid, ManageAreas)).Ok? && id !in old(db.areas)
            ==> r == Err(NotFound("Area"))
    ensures old(PermissionRequired(db.users, db.roles, uid, ManageAreas)).Ok? && id in old(db.areas)
            ==> match old(PatchArea(db.areas, id, f))
                case Err(e) => r == Err(e)
                case Ok(area) => r == Ok(id) && db.areas == old(db.areas)[id := area]
    ensures r.Err? ==> db.Snapshot() == old(db.Snapshot())
    ensures db.Snapshot() == old(db.Snapshot()).(areas := db.areas)
  {
    var gate := PermissionRequired(db.users, db.roles, uid, ManageAreas);
    if gate.Err? {
      return Err(gate.error);
    }
    if id !in db.areas {
      return Err(NotFound("Area"));
    }
    var area := db.areas[id];
    ghost var patched := PatchArea(db.areas, id, f);
    if f.name.Some? {
      if AreaNameTaken(db.areas, f.name.value, Some(id)) {
        return Err(NameTaken("Area"));
      }
      area := area.(name := f.name.value);
    }
    if f.description.Some? {
      area := area.(description := f.description.value);
    }
    assert patched == Ok(area);
    db.areas := db.areas[id := area];
    r := Ok(id);
  }

  /** delete_area: refused while a user works in the area. */
  method DeleteArea(db: Database, uid: Id, id: Id) returns (r: Result<Id, Error>)
    requires db.Valid()
    modifies db
    ensures db.Valid()
    ensures old(PermissionRequired(db.users, db.roles, uid, ManageAreas)).Err?
            ==> r == Err(old(PermissionRequired(db.users, db.roles, uid, ManageAreas)).error)
    ensures old(PermissionRequired(db.users, db.roles, uid, ManageAreas)).Ok? && id !in old(db.areas)
            ==> r == Err(NotFound("Area"))
    ensures old(PermissionRequired(db.users, db.roles, uid, ManageAreas)).Ok? && id in old(db.areas)
              && AreaInUse(old(db.users), id)
            ==> r == Err(InUse("area"))
    ensures r.Ok? <==> old(PermissionRequired(db.users, db.roles, uid, ManageAreas)).Ok? && id in old(db.areas)
                       && !AreaInUse(old(db.users), id)
    ensures r.Err? ==> db.Snapshot() == old(db.Snapshot())
    ensures r.Ok? ==> db.Snapshot() == old(db.Snapshot()).(areas := old(db.areas) - {id})
  {
    var gate := PermissionRequired(db.users, db.roles, uid, ManageAreas);
    if gate.Err? {
      return Err(gate.error);
    }
    if id !in db.areas {
      return Err(NotFound("Area"));
    }
    if AreaInUse(db.users, id) {
      return Err(InUse("area"));
    }
    db.areas := db.areas - {id};
    r := Ok(id);
  }

  // ---------------------------------------------------------------------------
  // Skills

  /** The checks and the record of create_skill; the description defaults to empty. */
  function NewSkill(skills: map<Id, Skill>, f: CatalogFields): (r: Result<Skill, Error>)
    ensures f.name.None? ==> r == Err(Required("name"))
    ensures f.name.Some? ==> (r.Ok? <==> !SkillNameTaken(skills, f.name.value, None))
    ensures r.Err? ==> r.error in {Required("name"), NameTaken("Skill")}
    ensures r.Ok? ==> r.value.name == f.name.value && r.value.description == f.description.GetOr("")
  {
    if f.name.None? then Err(Required("name"))
    else if SkillNameTaken(skills, f.name.value, None) then Err(NameTaken("Skill"))
    else Ok(Skill(f.name.value, f.description.GetOr("")))
  }

  function PatchSkill(skills: map<Id, Skill>, id: Id, f: CatalogFields): (r: Result<Skill, Error>)
    requires id in skills
    ensures r.Ok? <==> !(f.name.Some? && SkillNameTaken(skills, f.name.value, Some(id)))
    ensures r.Err? ==> r.error == NameTaken("Skill")
    ensures r.Ok? ==> r.value.name == f.name.GetOr(skills[id].name)
                      && r.value.description == f.description.GetOr(skills[id].description)
  {
    if f.name.Some? && SkillNameTaken(skills, f.name.value, Some(id)) then Err(NameTaken("Skill"))
    else
      var named := if f.name.Some? then skills[id].(name := f.name.value) else skills[id];
      Ok(if f.description.Some? then named.(description := f.description.value) else named)
  }

  /** Some employee holds skill `id`. */
  predicate SkillInUse(users: map<Id, User>, id: Id) {
    exists u :: u in users && id in users[u].skills
  }

  /** create_skill. */
  method CreateSkill(db: Database, uid: Id, f: CatalogFields) returns (r: Result<Id, Error>)
    requires db.Valid()
    modifies db
    ensures db.Valid()
    ensures old(PermissionRequired(db.users, db.roles, uid, ManageSkills)).Err?
            ==> r == Err(old(PermissionRequired(db.users, db.roles, uid, ManageSkills)).error)
    ensures old(PermissionRequired(db.users, db.roles, uid, ManageSkills)).Ok? && old(NewSkill(db.skills, f)).Err?
            ==> r == Err(old(NewSkill(db.skills, f)).error)
    ensures r.Ok? <==> old(PermissionRequired(db.users, db.roles, uid, ManageSkills)).Ok? && old(NewSkill(db.skills, f)).Ok?
    ensures r.Err? ==> db.Snapshot() == old(db.Snapshot())
    ensures r.Ok? ==> && r.value !in old(db.skills)
                      && db.Snapshot() == old(db.Snapshot()).(skills := old(db.skills)[r.value := old(NewSkill(db.skills, f)).value],
                                                              nextId := old(db.nextId) + 1)
  {
    var gate := PermissionRequired(db.users, db.roles, uid, ManageSkills);
    if gate.Err? {
      return Err(gate.error);
    }
    var skill := NewSkill(db.skills, f);
    if skill.Err? {
      return Err(skill.error);
    }
    var id := db.nextId;
    db.skills := db.skills[id := skill.value];
    db.nextId := db.nextId + 1;
    r := Ok(id);
  }

  /** update_skill. */
  method UpdateSkill(db: Database, uid: Id, id: Id, f: CatalogFields) returns (r: Result<Id, Error>)
    requires db.Valid()
    modifies db
    ensures db.Valid()
    ensures old(PermissionRequired(db.users, db.roles, uid, ManageSkills)).Err?
            ==> r == Err(old(PermissionRequired(db.users, db.roles, uid, ManageSkills)).error)
    ensures old(PermissionRequired(db.users, db.roles, uid, ManageSkills)).Ok? && id !in old(db.skills)
            ==> r == Err(NotFound("Skill"))
    ensures old(PermissionRequired(db.users, db.roles, uid, ManageSkills)).Ok? && id in old(db.skills)
            ==> match old(PatchSkill(db.skills, id, f))
                case Err(e) => r == Err(e)
                case Ok(skill) => r == Ok(id) && db.skills == old(db.skills)[id := skill]
    ensures r.Err? ==> db.Snapshot() == old(db.Snapshot())
    ensures db.Snapshot() == old(db.Snapshot()).(skills := db.skills)
  {
    var gate := PermissionRequired(db.users, db.roles, uid, ManageSkills);
    if gate.Err? {
      return Err(gate.error);
    }
    if id !in db.skills {
      return Err(NotFound("Skill"));
    }
    var skill := db.skills[id];
    ghost var patched := PatchSkill(db.skills, id, f);
    if f.name.Some? {
      if SkillNameTaken(db.skills, f.name.value, Some(id)) {
        return Err(NameTaken("Skill"));
      }
      skill := skill.(name := f.name.value);
    }
    if f.description.Some? {
      skill := skill.(description := f.description.value);
    }
    assert patched == Ok(skill);
    db.skills := db.skills[id := skill];
    r := Ok(id);
  }

  /** delete_skill: refused while an employee holds the skill. */
  method DeleteSkill(db: Database, uid: Id, id: Id) returns (r: Result<Id, Error>)
    requires db.Valid()
    modifies db
    ensures db.Valid()
    ensures old(PermissionRequired(db.users, db.roles, uid, ManageSkills)).Err?
            ==> r == Err(old(PermissionRequired(db.users, db.roles, uid, ManageSkills)).error)
    ensures old(PermissionRequired(db.users, db.roles, uid, ManageSkills)).Ok? && id !in old(db.skills)
            ==> r == Err(NotFound("Skill"))
    ensures old(PermissionRequired(db.users, db.roles, uid, ManageSkills)).Ok? && id in old(db.skills)
              && SkillInUse(old(db.users), id)
            ==> r == Err(InUse("skill"))
    ensures r.Ok? <==> old(PermissionRequired(db.users, db.roles, uid, ManageSkills)).Ok? && id in old(db.skills)
                       && !SkillInUse(old(db.users), id)
    ensures r.Err? ==> db.Snapshot() == old(db.Snapshot())
    ensures r.Ok? ==> db.Snapshot() == old(db.Snapshot()).(skills := old(db.skills) - {id})
  {
    var gate := PermissionRequired(db.users, db.roles, uid, ManageSkills);
    if gate.Err? {
      return Err(gate.error);
    }
    if id !in db.skills {
      return Err(NotFound("Skill"));
    }
    if SkillInUse(db.users, id) {
      return Err(InUse("skill"));
    }
    db.skills := db.skills - {id};
    r := Ok(id);
  }

  // ---------------------------------------------------------------------------
  // Shift types

  /** The first of the required shift fields (in the order name, start_time,
      end_time, hours) that the request lacks. */
  function MissingShiftField(f: ShiftFields): (r: Option<string>)
    ensures r.None? <==> f.name.Some? && f.startTime.Some? && f.endTime.Some? && f.hours.Some?
    ensures r == Some("name") <==> f.name.None?
    ensures r == Some("start_time") <==> f.name.Some? && f.startTime.None?
    ensures r == Some("end_time") <==> f.name.Some? && f.startTime.Some? && f.endTime.None?
    ensures r == Some("hours") <==> f.name.Some? && f.startTime.Some? && f.endTime.Some? && f.hours.None?
  {
    if f.name.None? then Some("name")
    else if f.startTime.None? then Some("start_time")
    else if f.endTime.None? then Some("end_time")
    else if f.hours.None? then Some("hours")
    else None
  }

  /** The checks and the record of create_shift: required fields, then the unique
      name, then both times; description defaults to empty and color to the house blue. */
  function NewShift(shifts: map<Id, Shift>, f: ShiftFields): (r: Result<Shift, Error>)
    ensures MissingShiftField(f).Some? ==> r == Err(Required(MissingShiftField(f).value))
    ensures MissingShiftField(f).None? && ShiftNameTaken(shifts, f.name.value, None) ==> r == Err(NameTaken("Shift"))
    ensures r.Ok? <==> && MissingShiftField(f).None?
                       && !ShiftNameTaken(shifts, f.name.value, None)
                       && f.startTime.value.IsoTime? && f.endTime.value.IsoTime?
    ensures MissingShiftField(f).None? && !ShiftNameTaken(shifts, f.name.value, None) && r.Err?
            ==> r == Err(InvalidTime("time"))
    ensures r.Ok? ==> r.value == Shift(f.name.value, f.startTime.value.minute, f.endTime.value.minute, f.hours.value,
                                       f.description.GetOr(""), f.color.GetOr(DefaultShiftColor))
  {
    match MissingShiftField(f)
    case Some(field) => Err(Required(field))
    case None =>
      if ShiftNameTaken(shifts, f.name.value, None) then Err(NameTaken("Shift"))
      else if f.startTime.value.BadTime? || f.endTime.value.BadTime? then Err(InvalidTime("time"))
      else Ok(Shift(f.name.value, f.startTime.value.minute, f.endTime.value.minute, f.hours.value,
                    f.description.GetOr(""), f.color.GetOr(DefaultShiftColor)))
  }

  /** The checks and the changes of update_shift on the shift `id`: the name first,
      then the start and the end time; only supplied fields change. */
  function PatchShift(shifts: map<Id, Shift>, id: Id, f: ShiftFields): (r: Result<Shift, Error>)
    requires id in shifts
    ensures r.Ok? <==> && !(f.name.Some? && ShiftNameTaken(shifts, f.name.value, Some(id)))
                       && (f.startTime.Some? ==> f.startTime.value.IsoTime?)
                       && (f.endTime.Some? ==> f.endTime.value.IsoTime?)
    ensures f.name.Some? && ShiftNameTaken(shifts, f.name.value, Some(id)) ==> r == Err(NameTaken("Shift"))
    ensures r.Err? ==> r.error in {NameTaken("Shift"), InvalidTime("start_time"), InvalidTime("end_time")}
    ensures r.Ok? ==> var s := shifts[id];
                      r.value == Shift(f.name.GetOr(s.name),
                                       if f.startTime.Some? then f.startTime.value.minute else s.startTime,
                                       if f.endTime.Some? then f.endTime.value.minute else s.endTime,
                                       f.hours.GetOr(s.hours), f.description.GetOr(s.description), f.color.GetOr(s.color))
  {
    var s := shifts[id];
    if f.name.Some? && ShiftNameTaken(shifts, f.name.value, Some(id)) then Err(NameTaken("Shift"))
    else if f.startTime.Some? && f.startTime.value.BadTime? then Err(InvalidTime("start_time"))
    else if f.endTime.Some? && f.endTime.value.BadTime? then Err(InvalidTime("end_time"))
    else
      Ok(Shift(f.name.GetOr(s.name),
               if f.startTime.Some? then f.startTime.value.minute else s.startTime,
               if f.endTime.Some? then f.endTime.value.minute else s.endTime,
               f.hours.GetOr(s.hours), f.description.GetOr(s.description), f.color.GetOr(s.color)))
  }

  /** An empty update leaves a shift as it is, and replaying an update on its own
      result changes nothing more. */
  lemma {:induction false} PatchShiftNeutralAndIdempotent(shifts: map<Id, Shift>, id: Id, f: ShiftFields)
    requires id in shifts && UniqueShiftNames(shifts)
    ensures PatchShift(shifts, id, ShiftFields(None, None, None, None, None, None)) == Ok(shifts[id])
    ensures PatchShift(shifts, id, f).Ok? ==>
              var once := PatchShift(shifts, id, f).value;
              PatchShift(shifts[id := once], id, f) == Ok(once)
  {
  }

  /** Some roster entry uses shift `id`. */
  predicate ShiftInUse(rosters: map<Id, RosterEntry>, id: Id) {
    exists k :: k in rosters && rosters[k].shiftId == id
  }

  /** create_shift. */
  method CreateShift(db: Database, uid: Id, f: ShiftFields) returns (r: Result<Id, Error>)
    requires db.Valid()
    modifies db
    ensures db.Valid()
    ensures old(PermissionRequired(db.users, db.roles, uid, ManageShifts)).Err?
            ==> r == Err(old(PermissionRequired(db.users, db.roles, uid, ManageShifts)).error)
    ensures old(PermissionRequired(db.users, db.roles, uid, ManageShifts)).Ok? && old(NewShift(db.shifts, f)).Err?
            ==> r == Err(old(NewShift(db.shifts, f)).error)
    ensures r.Ok? <==> old(PermissionRequired(db.users, db.roles, uid, ManageShifts)).Ok? && old(NewShift(db.shifts, f)).Ok?
    ensures r.Err? ==> db.Snapshot() == old(db.Snapshot())
    ensures r.Ok? ==> && r.value !in old(db.shifts)
                      && db.Snapshot() == old(db.Snapshot()).(shifts := old(db.shifts)[r.value := old(NewShift(db.shifts, f)).value],
                                                              nextId := old(db.nextId) + 1)
  {
    var gate := PermissionRequired(db.users, db.roles, uid, ManageShifts);
    if gate.Err? {
      return Err(gate.error);
    }
    var shift := NewShift(db.shifts, f);
    if shift.Err? {
      return Err(shift.error);
    }
    var id := db.nextId;
    db.shifts := db.shifts[id := shift.value];
    db.nextId := db.nextId + 1;
    r := Ok(id);
  }

  /** update_shift: fields are assigned one at a time; an error leaves the store as it was. */
  method UpdateShift(db: Database, uid: Id, id: Id, f: ShiftFields) returns (r: Result<Id, Error>)
    requires db.Valid()
    modifies db
    ensures db.Valid()
    ensures old(PermissionRequired(db.users, db.roles, uid, ManageShifts)).Err?
            ==> r == Err(old(PermissionRequired(db.users, db.roles, uid, ManageShifts)).error)
    ensures old(PermissionRequired(db.users, db.roles, uid, ManageShifts)).Ok? && id !in old(db.shifts)
            ==> r == Err(NotFound("Shift"))
    ensures old(PermissionRequired(db.users, db.roles, uid, ManageShifts)).Ok? && id in old(db.shifts)
            ==> match old(PatchShift(db.shifts, id, f))
                case Err(e) => r == Err(e)
                case Ok(shift) => r == Ok(id) && db.shifts == old(db.shifts)[id := shift]
    ensures r.Err? ==> db.Snapshot() == old(db.Snapshot())
    ensures db.Snapshot() == old(db.Snapshot()).(shifts := db.shifts)
  {
    var gate := PermissionRequired(db.users, db.roles, uid, ManageShifts);
    if gate.Err? {
      return Err(gate.error);
    }
    if id !in db.shifts {
      return Err(NotFound("Shift"));
    }
    var shift := db.shifts[id];
    ghost var patched := PatchShift(db.shifts, id, f);
    if f.name.Some? {
      if ShiftNameTaken(db.shifts, f.name.value, Some(id)) {
        return Err(NameTaken("Shift"));
      }
      shift := shift.(name := f.name.value);
    }
    if f.startTime.Some? {
      if f.startTime.value.BadTime? {
        return Err(InvalidTime("start_time"));
      }
      shift := shift.(startTime := f.startTime.value.minute);
    }
    if f.endTime.Some? {
      if f.endTime.value.BadTime? {
        return Err(InvalidTime("end_time"));
      }
      shift := shift.(endTime := f.endTime.value.minute);
    }
    if f.hours.Some? {
      shift := shift.(hours := f.hours.value);
    }
    if f.description.Some? {
      shift := shift.(description := f.description.value);
    }
    if f.color.Some? {
      shift := shift.(color := f.color.value);
    }
    assert patched == Ok(shift);
    db.shifts := db.shifts[id := shift];
    r := Ok(id);
  }

  /** delete_shift: refused while a roster entry uses the shift. */
  method DeleteShift(db: Database, uid: Id, id: Id) returns (r: Result<Id, Error>)
    requires db.Valid()
    modifies db
    ensures db.Valid()
    ensures old(PermissionRequired(db.users, db.roles, uid, ManageShifts)).Err?
            ==> r == Err(old(PermissionRequired(db.users, db.roles, uid, ManageShifts)).error)
    ensures old(PermissionRequired(db.users, db.roles, uid, ManageShifts)).Ok? && id !in old(db.shifts)
            ==> r == Err(NotFound("Shift"))
    ensures old(PermissionRequired(db.users, db.roles, uid, ManageShifts)).Ok? && id in old(db.shifts)
              && ShiftInUse(old(db.rosters), id)
            ==> r == Err(InUse("shift"))
    ensures r.Ok? <==> old(PermissionRequired(db.users, db.roles, uid, ManageShifts)).Ok? && id in old(db.shifts)
                       && !ShiftInUse(old(db.rosters), id)
    ensures r.Err? ==> db.Snapshot() == old(db.Snapshot())
    ensures r.Ok? ==> db.Snapshot() == old(db.Snapshot()).(shifts := old(db.shifts) - {id})
  {
    var gate := PermissionRequired(db.users, db.roles, uid, ManageShifts);
    if gate.Err? {
      return Err(gate.error);
    }
    if id !in db.shifts {
      return Err(NotFound("Shift"));
    }
    if ShiftInUse(db.rosters, id) {
      return Err(InUse("shift"));
    }
    db.shifts := db.shifts - {id};
    r := Ok(id);
  }
}
