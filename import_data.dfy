/** Bulk employee import from a spreadsheet: the file-type check, the required
    columns, the row loop that skips known employee ids and finds or creates the
    role, area and skills a row names, and the dry-run validation with its
    warnings. The import works on its own tables (employees with an `employee_id`
    code, a `contact_number`, an `area_id`, a hire date and an active flag; roles,
    areas and skills with a name and a description), which are the names the
    import code uses. A spreadsheet arrives already parsed: its column names and
    its rows, each a map from column to cell. */
module ImportData {
  import opened Common
  import Models
  import Decorators

  // ---------------------------------------------------------------------------
  // The uploaded file

  const AllowedExtensions: set<string> := {"csv", "xlsx", "xls"}

  /** The dot at `i` is the last one in `s`. */
  predicate LastDot(s: string, i: int) {
    0 <= i < |s| && s[i] == '.' && '.' !in s[i + 1..]
  }

  lemma {:induction false} LastDotUnique(s: string, i: int, j: int)
    requires LastDot(s, i) && LastDot(s, j)
    ensures i == j
  {
  }

  /** allowed_file: the name has a dot and the text after the last one, lower-cased,
      is csv, xlsx or xls. */
  function AllowedFile(filename: string): (ok: bool)
    ensures ok <==> exists i :: LastDot(filename, i) && LowerStr(filename[i + 1..]) in AllowedExtensions
  {
    match AfterLast(filename, '.')
    case None => false
    case Some(ext) =>
      var j := |filename| - |ext| - 1;
      assert filename[j + 1..] == ext;
      assert LastDot(filename, j);
      forall i | LastDot(filename, i) ensures i == j {
        LastDotUnique(filename, i, j);
      }
      LowerStr(ext) in AllowedExtensions
  }

  /** Lower-casing keeps dots where they are and creates none. */
  lemma LowerDot(c: char)
    ensures Lower(c) == '.' <==> c == '.'
  {
  }

  lemma {:induction false} LowerSuffix(s: string, i: int)
    requires 0 <= i <= |s|
    ensures LowerStr(s)[i..] == LowerStr(s[i..])
  {
  }

  /** The extension check ignores case: "ROTA.CSV" passes it like "rota.csv" (the reader
      chosen afterwards does not; see UpperCaseCsvReadAsExcel). */
  lemma {:induction false} AllowedFileIgnoresCase(filename: string)
    ensures AllowedFile(LowerStr(filename)) == AllowedFile(filename)
  {
    var l := LowerStr(filename);
    forall i | 0 <= i < |filename|
      ensures (LastDot(l, i) <==> LastDot(filename, i)) && LowerStr(l[i + 1..]) == LowerStr(filename[i + 1..])
    {
      LowerIdempotent(filename[i + 1..]);
      LowerDot(filename[i]);
      LowerSuffix(filename, i + 1);
      forall k | i + 1 <= k < |filename| ensures l[k] == '.' <==> filename[k] == '.' {
        LowerDot(filename[k]);
      }
      assert '.' in l[i + 1..] <==> exists k :: i + 1 <= k < |filename| && l[k] == '.';
      assert '.' in filename[i + 1..] <==> exists k :: i + 1 <= k < |filename| && filename[k] == '.';
    }
    if AllowedFile(filename) {
      var i :| LastDot(filename, i) && LowerStr(filename[i + 1..]) in AllowedExtensions;
      assert LastDot(l, i);
    }
    if AllowedFile(l) {
      var i :| LastDot(l, i) && LowerStr(l[i + 1..]) in AllowedExtensions;
      assert LastDot(filename, i);
    }
  }

  /** A cell as the spreadsheet reader delivers it: text; a value the reader typed
      (a number, boolean or timestamp), with its `str()` text and Python truthiness;
      or NaN for an empty cell. */
  datatype Cell = Text(s: string) | Typed(s: string, truthy: bool) | Nan

  type Row = map<string, Cell>

  /** A data frame: its header and its rows (row `i` is spreadsheet line `i + 2`). */
  datatype Frame = Frame(columns: seq<string>, rows: seq<Row>)

  /** An uploaded file: its name, and what the CSV reader and the Excel reader each make of
      its content (None when that reader raises). */
  datatype Upload = Upload(filename: string, asCsv: Option<Frame>, asExcel: Option<Frame>)

  predicate EndsWith(s: string, suffix: string) {
    |suffix| <= |s| && s[|s| - |suffix|..] == suffix
  }

  /** The reader is chosen by a case-sensitive test for ".csv"; every other accepted name,
      "ROTA.CSV" among them, goes to the Excel reader. */
  function Read(u: Upload): Option<Frame> {
    if EndsWith(u.filename, ".csv") then u.asCsv else u.asExcel
  }

  /** The extension check accepts "ROTA.CSV", but the content is then read as Excel. */
  lemma UpperCaseCsvReadAsExcel(csv: Option<Frame>, excel: Option<Frame>)
    ensures AllowedFile("ROTA.CSV")
    ensures Read(Upload("ROTA.CSV", csv, excel)) == excel
    ensures Read(Upload("rota.csv", csv, excel)) == csv
  {
    assert LastDot("ROTA.CSV", 4);
    assert "ROTA.CSV"[5..] == "CSV";
    assert LowerStr("CSV") == "csv" by {
      assert LowerStr("CSV") == [Lower('C')] + LowerStr("SV");
      assert LowerStr("SV") == [Lower('S')] + LowerStr("V");
      assert LowerStr("V") == [Lower('V')] + LowerStr("");
    }
    assert "ROTA.CSV"[4..] != ".csv";
    assert "rota.csv"[4..] == ".csv";
  }

  /** Every row has exactly the header's columns, as in a data frame. */
  predicate Rectangular(f: Frame) {
    forall i :: 0 <= i < |f.rows| ==> f.rows[i].Keys == set c | c in f.columns
  }

  /** What a reader delivers is a data frame. */
  predicate ReadsRectangular(file: Option<Upload>) {
    file.Some? && Read(file.value).Some? ==> Rectangular(Read(file.value).value)
  }

  const EmployeeIdColumn: string := "Employee ID"
  const RequiredColumns: seq<string> := [EmployeeIdColumn, "Name", "Surname", "Email"]

  predicate SubsequenceOf(a: seq<string>, b: seq<string>)
    decreases |b|
  {
    if a == [] then true
    else if b == [] then false
    else if a[0] == b[0] then SubsequenceOf(a[1..], b[1..])
    else SubsequenceOf(a, b[1..])
  }

  /** The entries of `wanted` that `present` lacks, in the order of `wanted`. */
  function MissingFrom(wanted: seq<string>, present: seq<string>): (r: seq<string>)
    ensures SubsequenceOf(r, wanted)
    ensures forall c :: c in r <==> c in wanted && c !in present
    decreases |wanted|
  {
    if wanted == [] then []
    else
      var rest := MissingFrom(wanted[1..], present);
      assert forall c :: c in wanted <==> c == wanted[0] || c in wanted[1..];
      if wanted[0] in present then
        rest
      else
        assert ([wanted[0]] + rest)[1..] == rest;
        [wanted[0]] + rest
  }

  /** The columns a data row must have once the header has passed the check. */
  predicate HasRequired(row: Row) {
    EmployeeIdColumn in row && "Name" in row && "Surname" in row && "Email" in row
  }

  lemma {:induction false} RequiredColumnsInRows(f: Frame)
    requires Rectangular(f) && MissingFrom(RequiredColumns, f.columns) == []
    ensures forall i :: 0 <= i < |f.rows| ==> HasRequired(f.rows[i])
  {
    assert forall c :: c in RequiredColumns ==> c in f.columns;
    forall i | 0 <= i < |f.rows| ensures HasRequired(f.rows[i]) {
      assert RequiredColumns[0] in f.columns && RequiredColumns[1] in f.columns;
      assert RequiredColumns[2] in f.columns && RequiredColumns[3] in f.columns;
    }
  }

  // ---------------------------------------------------------------------------
  // The import's tables

  /** A role, area or skill: a name and a description. */
  datatype Named = Named(name: string, description: string)

  datatype Employee = Employee(employeeId: Cell, name: Cell, surname: Cell, email: Cell, contactNumber: Cell,
                               roleId: Option<Id>, areaId: Option<Id>, hireDate: Option<Day>, isActive: bool,
                               skills: set<Id>)

  datatype Store = Store(employees: map<Id, Employee>, roles: map<Id, Named>, areas: map<Id, Named>,
                         skills: map<Id, Named>, nextId: Id)

  predicate UniqueNames(m: map<Id, Named>) {
    forall i, j :: i in m && j in m && m[i].name == m[j].name ==> i == j
  }

  predicate Refers(t: Store, e: Employee) {
    && (e.roleId.Some? ==> e.roleId.value in t.roles)
    && (e.areaId.Some? ==> e.areaId.value in t.areas)
    && e.skills <= t.skills.Keys
  }

  /** Names are unique per table, every key is below the counter and references resolve. */
  predicate StoreValid(t: Store) {
    && UniqueNames(t.roles) && UniqueNames(t.areas) && UniqueNames(t.skills)
    && Models.KeysBelow(t.employees, t.nextId) && Models.KeysBelow(t.roles, t.nextId)
    && Models.KeysBelow(t.areas, t.nextId) && Models.KeysBelow(t.skills, t.nextId)
    && forall e :: e in t.employees ==> Refers(t, t.employees[e])
  }

  /** The description given to a record the import creates. */
  function AutoDescription(kind: string, name: string): string {
    "Auto-created " + kind + ": " + name
  }

  /** `Model.query.filter_by(name=name).first()`: the record with this name, if any. */
  function FindByName(m: map<Id, Named>, name: string): (r: Option<Id>)
    ensures r.Some? ==> r.value in m && m[r.value].name == name
    ensures r.None? <==> forall k :: k in m ==> m[k].name != name
  {
    var ks := set k | k in m && m[k].name == name;
    assert forall k :: k in m && m[k].name == name ==> k in ks;
    if ks == {} then None else Some(Least(ks))
  }

  datatype Got = Got(table: map<Id, Named>, id: Id, next: Id)

  /** Find the record named `name`, or add one under the next key. */
  function GetOrCreate(m: map<Id, Named>, next: Id, name: string, kind: string): (r: Got)
    ensures r.id in r.table && r.table[r.id].name == name
    ensures (exists k :: k in m && m[k].name == name) ==> r.table == m && r.next == next
    ensures (forall k :: k in m ==> m[k].name != name)
            ==> r.id == next && r.next == next + 1 && r.table == m[next := Named(name, AutoDescription(kind, name))]
  {
    match FindByName(m, name)
    case Some(k) => Got(m, k, next)
    case None => Got(m[next := Named(name, AutoDescription(kind, name))], next, next + 1)
  }

  /** Get-or-create never creates a second record with a name: names stay unique and the
      record found is the only one with that name. */
  lemma {:induction false} GetOrCreateKeepsUnique(m: map<Id, Named>, next: Id, name: string, kind: string)
    requires UniqueNames(m) && Models.KeysBelow(m, next)
    ensures UniqueNames(GetOrCreate(m, next, name, kind).table)
    ensures Models.KeysBelow(GetOrCreate(m, next, name, kind).table, GetOrCreate(m, next, name, kind).next)
    ensures next <= GetOrCreate(m, next, name, kind).next
    ensures forall k :: k in m ==> k in GetOrCreate(m, next, name, kind).table && GetOrCreate(m, next, name, kind).table[k] == m[k]
    ensures GetOrCreate(m, next, name, kind).table.Keys <= m.Keys + {next}
    ensures forall k :: k in GetOrCreate(m, next, name, kind).table && GetOrCreate(m, next, name, kind).table[k].name == name
                        ==> k == GetOrCreate(m, next, name, kind).id
  {
    var g := GetOrCreate(m, next, name, kind);
    if FindByName(m, name).None? {
      forall i, j | i in g.table && j in g.table && g.table[i].name == g.table[j].name ensures i == j {
        if i != next && j != next {
          assert m[i].name == m[j].name;
        }
      }
    }
  }

  /** Asking again for the same name finds what the first call found or created. */
  lemma GetOrCreateIdempotent(m: map<Id, Named>, next: Id, name: string, kind: string, kind': string)
    requires UniqueNames(m) && Models.KeysBelow(m, next)
    ensures var g := GetOrCreate(m, next, name, kind);
            GetOrCreate(g.table, g.next, name, kind') == g
  {
    var g := GetOrCreate(m, next, name, kind);
    GetOrCreateKeepsUnique(m, next, name, kind);
    FindOnly(g.table, name, g.id);
  }

  /** The only record with a name is the one found by it. */
  lemma FindOnly(m: map<Id, Named>, name: string, k: Id)
    requires k in m && m[k].name == name
    requires forall j :: j in m && m[j].name == name ==> j == k
    ensures FindByName(m, name) == Some(k)
  {
    var ks := set j | j in m && m[j].name == name;
    forall j ensures j in ks <==> j == k {
      if j in ks {
        assert j in m && m[j].name == name;
      }
    }
    assert ks == {k};
    LeastUnique(k, ks);
  }

  // ---------------------------------------------------------------------------
  // The Skills cell

  /** Each part stripped of white space, the empty ones dropped. */
  function Filled(parts: seq<string>): (r: seq<string>)
    ensures forall x :: x in r ==> x != "" && exists p :: p in parts && Strip(p) == x
    ensures forall p :: p in parts && Strip(p) != "" ==> Strip(p) in r
    decreases |parts|
  {
    if parts == [] then []
    else
      var rest := Filled(parts[1..]);
      assert forall p :: p in parts <==> p == parts[0] || p in parts[1..];
      var h := Strip(parts[0]);
      if h == "" then rest else [h] + rest
  }

  /** The skill names of a Skills cell: split on commas, stripped, empty ones dropped. */
  function SkillNames(cell: string): seq<string> {
    Filled(Split(cell, ','))
  }

  lemma {:induction false} StripWithin(p: string, c: char)
    requires c in Strip(p)
    ensures c in p
  {
    var r := Strip(p);
    StripSurrounds(p);
    var i := |p| - |TrimLeft(p)|;
    var k :| 0 <= k < |r| && r[k] == c;
    assert p[i + k] == r[k];
  }

  /** Every skill name is non-empty, holds no comma and has no surrounding white space. */
  lemma {:induction false} SkillNamesClean(cell: string)
    ensures forall x :: x in SkillNames(cell) ==> x != "" && ',' !in x && !IsSpace(x[0]) && !IsSpace(x[|x| - 1])
  {
    var parts := Split(cell, ',');
    forall x | x in SkillNames(cell) ensures x != "" && ',' !in x && !IsSpace(x[0]) && !IsSpace(x[|x| - 1]) {
      var p :| p in parts && Strip(p) == x;
      if ',' in x {
        StripWithin(p, ',');
      }
    }
  }

  datatype Attached = Attached(table: map<Id, Named>, next: Id, held: set<Id>)

  /** The loop over the skill names: get or create each skill and attach it. */
  function AttachSkills(table: map<Id, Named>, next: Id, names: seq<string>): Attached
    decreases |names|
  {
    if names == [] then Attached(table, next, {})
    else
      var a := AttachSkills(table, next, names[..|names| - 1]);
      var g := GetOrCreate(a.table, a.next, names[|names| - 1], "skill");
      Attached(g.table, g.next, a.held + {g.id})
  }

  lemma {:induction false} AttachStep(table: map<Id, Named>, next: Id, names: seq<string>, j: int)
    requires 0 <= j < |names|
    ensures var a := AttachSkills(table, next, names[..j]);
            var g := GetOrCreate(a.table, a.next, names[j], "skill");
            AttachSkills(table, next, names[..j + 1]) == Attached(g.table, g.next, a.held + {g.id})
  {
    assert names[..j + 1][..j] == names[..j];
  }

  /** What the skill loop achieves from `table` and `next`. */
  ghost predicate AttachedWell(table: map<Id, Named>, next: Id, names: seq<string>, a: Attached) {
    && UniqueNames(a.table) && Models.KeysBelow(a.table, a.next) && next <= a.next
    && (forall k :: k in table ==> k in a.table && a.table[k] == table[k])
    && (forall k :: k in a.table && k !in table ==> next <= k)
    && (forall k :: k in a.held <==> k in a.table && a.table[k].name in names)
  }

  /** The employee ends up with exactly the skills the cell names, each existing once. */
  lemma {:induction false} AttachSkillsCorrect(table: map<Id, Named>, next: Id, names: seq<string>)
    requires UniqueNames(table) && Models.KeysBelow(table, next)
    ensures AttachedWell(table, next, names, AttachSkills(table, next, names))
    decreases |names|
  {
    var r := AttachSkills(table, next, names);
    if names != [] {
      var init := names[..|names| - 1];
      var last := names[|names| - 1];
      AttachSkillsCorrect(table, next, init);
      var a := AttachSkills(table, next, init);
      var g := GetOrCreate(a.table, a.next, last, "skill");
      GetOrCreateKeepsUnique(a.table, a.next, last, "skill");
      assert forall x :: x in names <==> x in init || x == last;
      forall k ensures k in r.held <==> k in r.table && r.table[k].name in names {
        if k in r.table && r.table[k].name in names && r.table[k].name != last {
          if k !in a.table {
            assert k == a.next;
          }
        }
      }
    }
  }

  // ---------------------------------------------------------------------------
  // One row

  /** `pd.notna(row.get(col))`. */
  predicate Given(row: Row, col: string) {
    col in row && !row[col].Nan?
  }

  /** `Employee.query.filter_by(employee_id=id).first()` finds a record (NaN matches nothing). */
  predicate IdTaken(employees: map<Id, Employee>, id: Cell) {
    !id.Nan? && exists e :: e in employees && employees[e].employeeId == id
  }

  /** The hire date, None when the cell is present but the date parser rejects it. */
  function HireDate(row: Row, toDate: Cell -> Option<Day>): (r: Option<Option<Day>>)
    ensures !Given(row, "Hire Date") ==> r == Some(None)
    ensures Given(row, "Hire Date") ==> (r.None? <==> toDate(row["Hire Date"]).None?)
  {
    if Given(row, "Hire Date") then
      match toDate(row["Hire Date"])
      case Some(d) => Some(Some(d))
      case None => None
    else Some(None)
  }

  /** `row.get('Status', 'Active').lower() == 'active'`; None when the cell is NaN or a
      typed value, which have no `lower`. */
  function Active(row: Row): (r: Option<bool>)
    ensures "Status" !in row ==> r == Some(true)
    ensures r.None? <==> "Status" in row && !row["Status"].Text?
  {
    if "Status" !in row then Some(true)
    else match row["Status"]
      case Text(s) => Some(LowerStr(s) == "active")
      case _ => None
  }

  /** `active` is case-insensitive: "ACTIVE" and "Active" both mean active. */
  lemma ActiveIgnoresCase(row: Row, s: string)
    requires "Status" in row && row["Status"] == Text(s)
    ensures Active(row) == Active(row["Status" := Text(LowerStr(s))])
  {
    LowerIdempotent(s);
  }

  datatype RowReason = IdExists(id: string) | Failed
  /** An entry of `errors`: the spreadsheet line and why the row was not imported. */
  datatype RowError = RowError(line: int, reason: RowReason)
  datatype Outcome = Imported | Skipped(error: RowError)
  datatype Step = Step(store: Store, outcome: Outcome)
  datatype Claimed = Claimed(store: Store, id: Option<Id>)

  /** Get or create the role the row names. */
  function ClaimRole(t: Store, row: Row): Claimed {
    if Given(row, "Role") then
      var g := GetOrCreate(t.roles, t.nextId, row["Role"].s, "role");
      Claimed(t.(roles := g.table, nextId := g.next), Some(g.id))
    else Claimed(t, None)
  }

  function ClaimArea(t: Store, row: Row): Claimed {
    if Given(row, "Area of Responsibility") then
      var g := GetOrCreate(t.areas, t.nextId, row["Area of Responsibility"].s, "area");
      Claimed(t.(areas := g.table, nextId := g.next), Some(g.id))
    else Claimed(t, None)
  }

  /** Getting or creating the role and the area keeps the store valid and touches
      nothing but its own table and the counter. */
  lemma {:induction false} ClaimKeepsValid(t: Store, row: Row)
    requires StoreValid(t)
    ensures StoreValid(ClaimRole(t, row).store) && StoreValid(ClaimArea(t, row).store)
    ensures ClaimRole(t, row).store == t.(roles := ClaimRole(t, row).store.roles, nextId := ClaimRole(t, row).store.nextId)
    ensures ClaimArea(t, row).store == t.(areas := ClaimArea(t, row).store.areas, nextId := ClaimArea(t, row).store.nextId)
    ensures t.nextId <= ClaimRole(t, row).store.nextId && t.nextId <= ClaimArea(t, row).store.nextId
    ensures ClaimRole(t, row).id.Some? ==> ClaimRole(t, row).id.value in ClaimRole(t, row).store.roles
    ensures ClaimArea(t, row).id.Some? ==> ClaimArea(t, row).id.value in ClaimArea(t, row).store.areas
    ensures Given(row, "Role") <==> ClaimRole(t, row).id.Some?
    ensures Given(row, "Area of Responsibility") <==> ClaimArea(t, row).id.Some?
  {
    if Given(row, "Role") {
      GetOrCreateKeepsUnique(t.roles, t.nextId, row["Role"].s, "role");
    }
    if Given(row, "Area of Responsibility") {
      GetOrCreateKeepsUnique(t.areas, t.nextId, row["Area of Responsibility"].s, "area");
    }
  }

  /** The record a row becomes, before its skills are attached. */
  function NewEmployee(row: Row, role: Option<Id>, area: Option<Id>, hire: Option<Day>, active: bool): (e: Employee)
    requires HasRequired(row)
    ensures e.employeeId == row[EmployeeIdColumn] && e.skills == {}
    ensures e.name == row["Name"] && e.surname == row["Surname"] && e.email == row["Email"]
    ensures e.contactNumber == if "Contact Number" in row then row["Contact Number"] else Text("")
  {
    Employee(row[EmployeeIdColumn], row["Name"], row["Surname"], row["Email"],
             if "Contact Number" in row then row["Contact Number"] else Text(""),
             role, area, hire, active, {})
  }

  /** The skill names of the row's Skills cell, None when the cell is absent or NaN. */
  function SkillsCell(row: Row): (r: Option<seq<string>>)
    ensures r.Some? <==> Given(row, "Skills")
    ensures r.Some? ==> r.value == SkillNames(row["Skills"].s)
  {
    if Given(row, "Skills") then Some(SkillNames(row["Skills"].s)) else None
  }

  /** Add `e` under the next key, then get or create and attach every skill in `names`. */
  function Admit(s: Store, e: Employee, names: Option<seq<string>>): Store {
    match names
    case Some(ns) =>
      var a := AttachSkills(s.skills, s.nextId + 1, ns);
      s.(employees := s.employees[s.nextId := e.(skills := e.skills + a.held)], skills := a.table, nextId := a.next)
    case None => s.(employees := s.employees[s.nextId := e], nextId := s.nextId + 1)
  }

  /** What admitting `e` achieves. */
  ghost predicate AdmitWell(s: Store, e: Employee, names: Option<seq<string>>, s': Store) {
    && StoreValid(s') && s.nextId < s'.nextId
    && s.nextId !in s.employees && s'.employees.Keys == s.employees.Keys + {s.nextId}
    && s'.roles == s.roles && s'.areas == s.areas
    && (forall k :: k in s.employees ==> s'.employees[k] == s.employees[k])
    && s'.employees[s.nextId] == e.(skills := s'.employees[s.nextId].skills)
    && (names.Some? ==>
          forall j :: j in s'.employees[s.nextId].skills <==> j in s'.skills && s'.skills[j].name in names.value)
    && (names.None? ==> s'.employees[s.nextId].skills == {})
  }

  /** Storing a referring employee under the counter's key keeps the store valid. */
  lemma {:induction false} InsertKeepsValid(s: Store, e: Employee)
    requires StoreValid(s) && Refers(s, e)
    ensures StoreValid(s.(employees := s.employees[s.nextId := e], nextId := s.nextId + 1))
  {
    var s3 := s.(employees := s.employees[s.nextId := e], nextId := s.nextId + 1);
    forall k | k in s3.employees ensures Refers(s3, s3.employees[k]) {
      if k != s.nextId {
        assert Refers(s, s.employees[k]);
      }
    }
  }

  /** Growing the skill table and giving employee `eid` skills from it keeps the store valid. */
  lemma {:induction false} SkillsKeepValid(t: Store, eid: Id, table: map<Id, Named>, next: Id, held: set<Id>)
    requires StoreValid(t) && eid in t.employees
    requires UniqueNames(table) && Models.KeysBelow(table, next) && t.nextId <= next
    requires t.skills.Keys <= table.Keys && held <= table.Keys
    ensures StoreValid(t.(employees := t.employees[eid := t.employees[eid].(skills := held)], skills := table, nextId := next))
  {
    var r := t.(employees := t.employees[eid := t.employees[eid].(skills := held)], skills := table, nextId := next);
    forall k | k in r.employees ensures Refers(r, r.employees[k]) {
      assert Refers(t, t.employees[k]);
    }
  }

  lemma {:induction false} AdmitCorrect(s: Store, e: Employee, names: Option<seq<string>>)
    requires StoreValid(s) && Refers(s, e) && e.skills == {}
    ensures AdmitWell(s, e, names, Admit(s, e, names))
  {
    match names
    case Some(ns) => AdmitWithSkills(s, e, ns);
    case None => AdmitWithout(s, e);
  }

  lemma {:induction false} AdmitWithSkills(s: Store, e: Employee, names: seq<string>)
    requires StoreValid(s) && Refers(s, e) && e.skills == {}
    ensures AdmitWell(s, e, Some(names), Admit(s, e, Some(names)))
  {
    var a := AttachSkills(s.skills, s.nextId + 1, names);
    assert Admit(s, e, Some(names))
        == s.(employees := s.employees[s.nextId := e.(skills := e.skills + a.held)], skills := a.table, nextId := a.next);
    InsertKeepsValid(s, e);
    AttachSkillsCorrect(s.skills, s.nextId + 1, names);
    SkillsAttached(s, e, names, a);
  }

  /** Admitting without a Skills cell only stores the employee. */
  lemma {:induction false} AdmitWithout(s: Store, e: Employee)
    requires StoreValid(s) && Refers(s, e) && e.skills == {}
    ensures AdmitWell(s, e, None, Admit(s, e, None))
  {
    InsertKeepsValid(s, e);
  }

  /** Admitting with the skill loop's result `a` in place. */
  lemma {:induction false} SkillsAttached(s: Store, e: Employee, names: seq<string>, a: Attached)
    requires StoreValid(s) && Refers(s, e) && e.skills == {}
    requires StoreValid(s.(employees := s.employees[s.nextId := e], nextId := s.nextId + 1))
    requires AttachedWell(s.skills, s.nextId + 1, names, a)
    ensures AdmitWell(s, e, Some(names),
                      s.(employees := s.employees[s.nextId := e.(skills := e.skills + a.held)], skills := a.table, nextId := a.next))
  {
    var eid := s.nextId;
    var s3 := s.(employees := s.employees[eid := e], nextId := eid + 1);
    assert forall k :: k in a.held ==> k in a.table;
    assert forall k :: k in s3.skills ==> k in a.table;
    SkillsKeepValid(s3, eid, a.table, a.next, a.held);
    assert e.skills + a.held == a.held;
    assert s3.(employees := s3.employees[eid := s3.employees[eid].(skills := a.held)], skills := a.table, nextId := a.next)
        == s.(employees := s.employees[eid := e.(skills := e.skills + a.held)], skills := a.table, nextId := a.next);
  }

  /** The body of the row loop for row `index`. A row that fails after its role or area
      was created keeps them: nothing is rolled back. */
  function ImportRow(t: Store, row: Row, index: int, toDate: Cell -> Option<Day>): Step
    requires HasRequired(row)
  {
    var id := row[EmployeeIdColumn];
    if IdTaken(t.employees, id) then Step(t, Skipped(RowError(index + 2, IdExists(id.s))))
    else
      var t1 := ClaimRole(t, row);
      var t2 := ClaimArea(t1.store, row);
      var hire, active := HireDate(row, toDate), Active(row);
      if hire.None? || active.None? then Step(t2.store, Skipped(RowError(index + 2, Failed)))
      else Step(Admit(t2.store, NewEmployee(row, t1.id, t2.id, hire.value, active.value), SkillsCell(row)), Imported)
  }

  /** What one row does to a valid store. */
  ghost predicate RowWell(t: Store, row: Row, index: int, s: Step)
    requires HasRequired(row)
  {
    && StoreValid(s.store) && t.nextId <= s.store.nextId
    && (forall k :: k in t.employees ==> k in s.store.employees && s.store.employees[k] == t.employees[k])
    && |s.store.employees| == |t.employees| + (if s.outcome.Imported? then 1 else 0)
    && (s.outcome.Skipped? ==> s.store.employees == t.employees && s.outcome.error.line == index + 2)
    && (IdTaken(t.employees, row[EmployeeIdColumn])
        ==> s == Step(t, Skipped(RowError(index + 2, IdExists(row[EmployeeIdColumn].s)))))
    && (!IdTaken(t.employees, row[EmployeeIdColumn]) ==> s.outcome.Imported? || s.outcome.error.reason == Failed)
    && (s.outcome.Imported? ==>
          forall k :: k in s.store.employees && k !in t.employees ==> s.store.employees[k].employeeId == row[EmployeeIdColumn])
  }

  /** A row is either skipped, leaving the employees untouched, or adds exactly one
      employee under a fresh key; the store stays valid either way. */
  lemma {:induction false} ImportRowCorrect(t: Store, row: Row, index: int, toDate: Cell -> Option<Day>)
    requires StoreValid(t) && HasRequired(row)
    ensures RowWell(t, row, index, ImportRow(t, row, index, toDate))
  {
    if !IdTaken(t.employees, row[EmployeeIdColumn]) {
      if HireDate(row, toDate).None? || Active(row).None? {
        FailedRowCorrect(t, row, index, toDate);
      } else {
        AdmittedRowCorrect(t, row, index, toDate);
      }
    }
  }

  lemma {:induction false} FailedRowCorrect(t: Store, row: Row, index: int, toDate: Cell -> Option<Day>)
    requires StoreValid(t) && HasRequired(row) && !IdTaken(t.employees, row[EmployeeIdColumn])
    requires HireDate(row, toDate).None? || Active(row).None?
    ensures RowWell(t, row, index, ImportRow(t, row, index, toDate))
  {
    ClaimKeepsValid(t, row);
    ClaimKeepsValid(ClaimRole(t, row).store, row);
  }

  lemma {:induction false} AdmittedRowCorrect(t: Store, row: Row, index: int, toDate: Cell -> Option<Day>)
    requires StoreValid(t) && HasRequired(row) && !IdTaken(t.employees, row[EmployeeIdColumn])
    requires HireDate(row, toDate).Some? && Active(row).Some?
    ensures RowWell(t, row, index, ImportRow(t, row, index, toDate))
  {
    ClaimKeepsValid(t, row);
    var t1 := ClaimRole(t, row);
    ClaimKeepsValid(t1.store, row);
    var t2 := ClaimArea(t1.store, row);
    var e := NewEmployee(row, t1.id, t2.id, HireDate(row, toDate).value, Active(row).value);
    AdmitCorrect(t2.store, e, SkillsCell(row));
    var s' := Admit(t2.store, e, SkillsCell(row));
    assert ImportRow(t, row, index, toDate) == Step(s', Imported);
    assert s'.employees.Keys == t.employees.Keys + {t2.store.nextId};
    assert |s'.employees.Keys| == |t.employees.Keys| + 1;
  }

  /** An imported employee holds exactly the skills its Skills cell names. */
  lemma {:induction false} ImportedSkills(t: Store, row: Row, index: int, toDate: Cell -> Option<Day>)
    requires StoreValid(t) && HasRequired(row) && Given(row, "Skills")
    requires ImportRow(t, row, index, toDate).outcome.Imported?
    ensures forall k :: k in ImportRow(t, row, index, toDate).store.employees && k !in t.employees ==>
              SkillsNamed(ImportRow(t, row, index, toDate).store, k, SkillNames(row["Skills"].s))
  {
    ClaimKeepsValid(t, row);
    var t1 := ClaimRole(t, row);
    ClaimKeepsValid(t1.store, row);
    var t2 := ClaimArea(t1.store, row);
    assert t2.store.employees == t.employees;
    var e := NewEmployee(row, t1.id, t2.id, HireDate(row, toDate).value, Active(row).value);
    AdmitCorrect(t2.store, e, SkillsCell(row));
    var s' := Admit(t2.store, e, SkillsCell(row));
    assert ImportRow(t, row, index, toDate).store == s';
    forall k | k in s'.employees && k !in t.employees
      ensures SkillsNamed(s', k, SkillNames(row["Skills"].s))
    {
      assert k == t2.store.nextId;
    }
  }

  /** Employee `k` holds exactly the stored skills named in `names`. */
  ghost predicate SkillsNamed(s: Store, k: Id, names: seq<string>)
    requires k in s.employees
  {
    forall j :: j in s.employees[k].skills <==> j in s.skills && s.skills[j].name in names
  }

  /** Importing the same row twice adds the employee once: the second time it is
      reported as an existing id and changes nothing. */
  lemma ReimportSkipped(t: Store, row: Row, index: int, index': int, toDate: Cell -> Option<Day>)
    requires StoreValid(t) && HasRequired(row) && !row[EmployeeIdColumn].Nan?
    requires ImportRow(t, row, index, toDate).outcome.Imported?
    ensures ImportRow(ImportRow(t, row, index, toDate).store, row, index', toDate)
            == Step(ImportRow(t, row, index, toDate).store, Skipped(RowError(index' + 2, IdExists(row[EmployeeIdColumn].s))))
  {
    ImportRowCorrect(t, row, index, toDate);
    var s := ImportRow(t, row, index, toDate).store;
    var k :| k in s.employees && k !in t.employees by {
      if forall k :: k in s.employees ==> k in t.employees {
        SubsetCard(s.employees.Keys, t.employees.Keys);
        assert false;
      }
    }
    assert IdTaken(s.employees, row[EmployeeIdColumn]);
  }

  // ---------------------------------------------------------------------------
  // The whole file

  datatype Report = Report(store: Store, imported: nat, errors: seq<RowError>)

  predicate AllHaveRequired(rows: seq<Row>) {
    forall i :: 0 <= i < |rows| ==> HasRequired(rows[i])
  }

  lemma {:induction false} PrefixHasRequired(rows: seq<Row>, n: int)
    requires AllHaveRequired(rows) && 0 <= n <= |rows|
    ensures AllHaveRequired(rows[..n])
  {
    assert forall k :: 0 <= k < n ==> rows[..n][k] == rows[k];
  }

  /** The row loop as a fold over the rows seen so far. */
  function ImportRows(t: Store, rows: seq<Row>, toDate: Cell -> Option<Day>): Report
    requires AllHaveRequired(rows)
    decreases |rows|
  {
    if rows == [] then Report(t, 0, [])
    else
      var p := ImportRows(t, rows[..|rows| - 1], toDate);
      Tally(p, ImportRow(p.store, rows[|rows| - 1], |rows| - 1, toDate))
  }

  /** Count an imported row, or append a skipped row's error. */
  function Tally(p: Report, s: Step): (r: Report)
    ensures r.store == s.store
    ensures s.outcome.Imported? ==> r.imported == p.imported + 1 && r.errors == p.errors
    ensures s.outcome.Skipped? ==> r.imported == p.imported && r.errors == p.errors + [s.outcome.error]
  {
    match s.outcome
    case Imported => Report(s.store, p.imported + 1, p.errors)
    case Skipped(e) => Report(s.store, p.imported, p.errors + [e])
  }

  lemma {:induction false} ImportRowsStep(t: Store, rows: seq<Row>, i: int, toDate: Cell -> Option<Day>)
    requires AllHaveRequired(rows) && 0 <= i < |rows|
    ensures AllHaveRequired(rows[..i]) && AllHaveRequired(rows[..i + 1])
    ensures var p := ImportRows(t, rows[..i], toDate);
            ImportRows(t, rows[..i + 1], toDate) == Tally(p, ImportRow(p.store, rows[i], i, toDate))
  {
    PrefixHasRequired(rows, i);
    PrefixHasRequired(rows, i + 1);
    assert rows[..i + 1][..i] == rows[..i];
  }

  /** What the loop reports about a valid store. */
  predicate ReportWell(t: Store, rows: seq<Row>, r: Report) {
    && StoreValid(r.store)
    && r.imported + |r.errors| == |rows|
    && |r.store.employees| == |t.employees| + r.imported
    && (forall k :: k in t.employees ==> k in r.store.employees && r.store.employees[k] == t.employees[k])
    && (forall j :: 0 <= j < |r.errors| ==> 2 <= r.errors[j].line <= |rows| + 1)
    && (forall j, j' :: 0 <= j < j' < |r.errors| ==> r.errors[j].line < r.errors[j'].line)
  }

  /** Every row is either counted as imported or reported once, in file order; the count
      is the number of employees added; rows imported before a failing row stay. */
  lemma {:induction false} ImportRowsCorrect(t: Store, rows: seq<Row>, toDate: Cell -> Option<Day>)
    requires StoreValid(t) && AllHaveRequired(rows)
    ensures ReportWell(t, rows, ImportRows(t, rows, toDate))
    decreases |rows|
  {
    if rows != [] {
      var init := rows[..|rows| - 1];
      PrefixHasRequired(rows, |rows| - 1);
      ImportRowsCorrect(t, init, toDate);
      var p := ImportRows(t, init, toDate);
      ImportRowCorrect(p.store, rows[|rows| - 1], |rows| - 1, toDate);
    }
  }

  /** The summary import_employees_csv returns. */
  datatype Summary = Summary(imported: nat, errors: seq<RowError>)

  /** The skill loop: get or create each named skill in turn and collect the ids. */
  method AttachAll(table0: map<Id, Named>, next0: Id, names: seq<string>) returns (a: Attached)
    ensures a == AttachSkills(table0, next0, names)
  {
    var table, next, held := table0, next0, {};
    var j := 0;
    while j < |names|
      invariant 0 <= j <= |names|
      invariant AttachSkills(table0, next0, names[..j]) == Attached(table, next, held)
    {
      AttachStep(table0, next0, names, j);
      var g := GetOrCreate(table, next, names[j], "skill");
      table, next, held := g.table, g.next, held + {g.id};
      j := j + 1;
    }
    assert names[..j] == names;
    a := Attached(table, next, held);
  }

  class ImportDatabase {
    var employees: map<Id, Employee>
    var roles: map<Id, Named>
    var areas: map<Id, Named>
    var skills: map<Id, Named>
    var nextId: Id

    ghost function Snapshot(): Store
      reads this
    {
      Store(employees, roles, areas, skills, nextId)
    }

    ghost predicate Valid()
      reads this
    {
      StoreValid(Snapshot())
    }

    constructor()
      ensures Valid() && Snapshot() == Store(map[], map[], map[], map[], 1)
    {
      employees, roles, areas, skills, nextId := map[], map[], map[], map[], 1;
    }

    /** One turn of the row loop, changing the tables in place. */
    method ImportRowInto(row: Row, index: int, toDate: Cell -> Option<Day>) returns (o: Outcome)
      requires HasRequired(row)
      modifies this
      ensures Step(Snapshot(), o) == ImportRow(old(Snapshot()), row, index, toDate)
    {
      ghost var s0 := Snapshot();
      var id := row[EmployeeIdColumn];
      if IdTaken(employees, id) {
        return Skipped(RowError(index + 2, IdExists(id.s)));
      }
      var role: Option<Id> := None;
      if Given(row, "Role") {
        var g := GetOrCreate(roles, nextId, row["Role"].s, "role");
        roles, nextId, role := g.table, g.next, Some(g.id);
      }
      assert Claimed(Snapshot(), role) == ClaimRole(s0, row);
      ghost var s1 := Snapshot();
      var area: Option<Id> := None;
      if Given(row, "Area of Responsibility") {
        var g := GetOrCreate(areas, nextId, row["Area of Responsibility"].s, "area");
        areas, nextId, area := g.table, g.next, Some(g.id);
      }
      assert Claimed(Snapshot(), area) == ClaimArea(s1, row);
      var hire, active := HireDate(row, toDate), Active(row);
      if hire.None? || active.None? {
        return Skipped(RowError(index + 2, Failed));
      }
      AdmitInto(NewEmployee(row, role, area, hire.value, active.value), SkillsCell(row));
      o := Imported;
    }

    /** Store the new employee (`db.session.add` and `flush`), then get or create every
        skill its row names and attach it. */
    method AdmitInto(e: Employee, names: Option<seq<string>>)
      modifies this
      ensures Snapshot() == Admit(old(Snapshot()), e, names)
    {
      var eid := nextId;
      match names {
        case None =>
          employees, nextId := employees[eid := e], eid + 1;
        case Some(ns) =>
          var a := AttachAll(skills, eid + 1, ns);
          employees, skills, nextId := employees[eid := e.(skills := e.skills + a.held)], a.table, a.next;
      }
    }
  }

  /** import_employees_csv: Admin only (the `admin_required` the file asks for is
      `role_required('Admin')`); then the file checks, the header check and the row loop;
      everything the loop did is committed. */
  method ImportEmployeesCsv(db: ImportDatabase, users: map<Id, Models.User>, roles: map<Id, Models.Role>, uid: Id,
                            file: Option<Upload>, toDate: Cell -> Option<Day>) returns (r: Result<Summary, Error>)
    requires db.Valid()
    requires ReadsRectangular(file)
    modifies db
    ensures db.Valid()
    ensures Decorators.RoleRequired(users, roles, uid, {Decorators.Admin}).Err?
            ==> r == Err(Decorators.RoleRequired(users, roles, uid, {Decorators.Admin}).error)
    ensures Decorators.RoleRequired(users, roles, uid, {Decorators.Admin}).Ok? ==>
            if file.None? then r == Err(NoFile)
            else if file.value.filename == "" then r == Err(NoFileSelected)
            else if !AllowedFile(file.value.filename) then r == Err(InvalidFileType)
            else if Read(file.value).None? then r == Err(Internal)
            else if MissingFrom(RequiredColumns, Read(file.value).value.columns) != []
            then r == Err(MissingColumns(MissingFrom(RequiredColumns, Read(file.value).value.columns)))
            else AllHaveRequired(Read(file.value).value.rows)
                 && var rep := ImportRows(old(db.Snapshot()), Read(file.value).value.rows, toDate);
                    r == Ok(Summary(rep.imported, rep.errors)) && db.Snapshot() == rep.store
    ensures r.Err? ==> db.Snapshot() == old(db.Snapshot())
  {
    var gate := Decorators.RoleRequired(users, roles, uid, {Decorators.Admin});
    if gate.Err? {
      return Err(gate.error);
    }
    if file.None? {
      return Err(NoFile);
    }
    var upload := file.value;
    if upload.filename == "" {
      return Err(NoFileSelected);
    }
    if !AllowedFile(upload.filename) {
      return Err(InvalidFileType);
    }
    var frame := Read(upload);
    if frame.None? {
      return Err(Internal);
    }
    var f := frame.value;
    var missing := MissingFrom(RequiredColumns, f.columns);
    if missing != [] {
      return Err(MissingColumns(missing));
    }
    RequiredColumnsInRows(f);
    ghost var start := db.Snapshot();
    var imported, errors := ImportAll(db, f.rows, toDate);
    ImportRowsCorrect(start, f.rows, toDate);
    r := Ok(Summary(imported, errors));
  }

  /** The row loop of import_employees_csv, row by row in file order. */
  method ImportAll(db: ImportDatabase, rows: seq<Row>, toDate: Cell -> Option<Day>)
    returns (imported: nat, errors: seq<RowError>)
    requires AllHaveRequired(rows)
    modifies db
    ensures ImportRows(old(db.Snapshot()), rows, toDate) == Report(db.Snapshot(), imported, errors)
  {
    ghost var start := db.Snapshot();
    imported, errors := 0, [];
    var i := 0;
    while i < |rows|
      invariant 0 <= i <= |rows|
      invariant AllHaveRequired(rows[..i])
      invariant ImportRows(start, rows[..i], toDate) == Report(db.Snapshot(), imported, errors)
    {
      ImportRowsStep(start, rows, i, toDate);
      var o := db.ImportRowInto(rows[i], i, toDate);
      if o.Imported? {
        imported := imported + 1;
      } else {
        errors := errors + [o.error];
      }
      i := i + 1;
    }
    assert rows[..i] == rows;
  }

  // ---------------------------------------------------------------------------
  // Validation

  /** The Employee ID values that occur on more than one row (`duplicated(keep=False)`). */
  function DuplicateIds(rows: seq<Row>): set<Cell>
    requires AllHaveRequired(rows)
  {
    set i | 0 <= i < |rows| && (exists j :: 0 <= j < |rows| && j != i && rows[j][EmployeeIdColumn] == rows[i][EmployeeIdColumn])
      :: rows[i][EmployeeIdColumn]
  }

  /** The Employee ID of every row whose id is already stored, in file order. */
  function ExistingIds(employees: map<Id, Employee>, rows: seq<Row>): (r: seq<Cell>)
    requires AllHaveRequired(rows)
    decreases |rows|
  {
    if rows == [] then []
    else
      var p := ExistingIds(employees, rows[..|rows| - 1]);
      var id := rows[|rows| - 1][EmployeeIdColumn];
      if IdTaken(employees, id) then p + [id] else p
  }

  datatype EmailIssue = EmailIssue(line: int, email: string)

  /** A non-empty email without `@` is reported with its line. */
  predicate BadEmail(c: Cell) {
    c.Text? && c.s != "" && '@' !in c.s
  }

  /** `if email and '@' not in email` raises: the cell is truthy but not text. A NaN is
      truthy; a typed value is when its Python truthiness says so. */
  predicate EmailRaises(c: Cell) {
    c.Nan? || (c.Typed? && c.truthy)
  }

  /** The email loop: the issues in file order, or None when an email cell makes the
      check raise, which fails the request. */
  function EmailIssues(rows: seq<Row>): Option<seq<EmailIssue>>
    requires AllHaveRequired(rows)
    decreases |rows|
  {
    if rows == [] then Some([])
    else
      match EmailIssues(rows[..|rows| - 1])
      case None => None
      case Some(p) =>
        var c := rows[|rows| - 1]["Email"];
        if EmailRaises(c) then None
        else if BadEmail(c) then Some(p + [EmailIssue(|rows| + 1, c.s)])
        else Some(p)
  }

  /** The email loop fails exactly on an email cell that makes the check raise, and otherwise reports exactly the lines
      whose email is non-empty and lacks `@`. */
  lemma {:induction false} EmailIssuesCorrect(rows: seq<Row>)
    requires AllHaveRequired(rows)
    ensures EmailIssues(rows).None? <==> exists i :: 0 <= i < |rows| && EmailRaises(rows[i]["Email"])
    ensures EmailIssues(rows).Some? ==>
              forall i :: 0 <= i < |rows| && BadEmail(rows[i]["Email"]) ==> EmailIssue(i + 2, rows[i]["Email"].s) in EmailIssues(rows).value
    ensures EmailIssues(rows).Some? ==>
              forall x :: x in EmailIssues(rows).value ==> 2 <= x.line <= |rows| + 1 && BadEmail(rows[x.line - 2]["Email"]) && rows[x.line - 2]["Email"].s == x.email
    decreases |rows|
  {
    if rows != [] {
      var init := rows[..|rows| - 1];
      PrefixHasRequired(rows, |rows| - 1);
      EmailIssuesCorrect(init);
      assert forall i :: 0 <= i < |init| ==> init[i] == rows[i];
    }
  }

  /** Typed cells: a numeric Status has no `lower`, so the row fails; a truthy numeric
      email makes the email check raise, while a falsy one is skipped. */
  lemma TypedCellsScenario(id: Cell, name: Cell)
    ensures Active(map["Status" := Typed("1", true)]).None?
    ensures var row := map[EmployeeIdColumn := id, "Name" := name, "Surname" := name, "Email" := Typed("5", true)];
      EmailIssues([row]).None?
    ensures var row := map[EmployeeIdColumn := id, "Name" := name, "Surname" := name, "Email" := Typed("0", false)];
      EmailIssues([row]) == Some([])
  {
    var bad := map[EmployeeIdColumn := id, "Name" := name, "Surname" := name, "Email" := Typed("5", true)];
    assert [bad][..0] == [];
    var zero := map[EmployeeIdColumn := id, "Name" := name, "Surname" := name, "Email" := Typed("0", false)];
    assert [zero][..0] == [];
  }

  datatype Warning = DuplicateIdsFound(ids: set<Cell>) | ExistingIdsFound(known: seq<Cell>) | InvalidEmails(listed: seq<EmailIssue>)

  /** The warnings in the order they are appended; at most five email issues are listed. */
  function Warnings(dups: set<Cell>, existing: seq<Cell>, issues: seq<EmailIssue>): (w: seq<Warning>)
    ensures DuplicateIdsFound(dups) in w <==> dups != {}
    ensures ExistingIdsFound(existing) in w <==> existing != []
    ensures (exists x :: x in w && x.InvalidEmails?) <==> issues != []
    ensures forall x :: x in w && x.InvalidEmails? ==>
              |x.listed| <= 5 && |x.listed| <= |issues| && x.listed == issues[..|x.listed|] && (|x.listed| == 5 || x.listed == issues)
  {
    var a := if dups != {} then [DuplicateIdsFound(dups)] else [];
    var b := if existing != [] then [ExistingIdsFound(existing)] else [];
    var c := if issues != [] then [InvalidEmails(if |issues| <= 5 then issues else issues[..5])] else [];
    assert forall x :: x in a + b + c <==> x in a || x in b || x in c;
    assert issues != [] ==> c[0] in a + b + c && c[0].InvalidEmails?;
    a + b + c
  }

  datatype Validation = Validation(valid: bool, totalRows: nat, missingColumns: seq<string>,
                                   availableColumns: seq<string>, sample: seq<Row>, warnings: seq<Warning>)

  /** The ids-in-database loop. */
  method CollectExistingIds(employees: map<Id, Employee>, rows: seq<Row>) returns (ids: seq<Cell>)
    requires AllHaveRequired(rows)
    ensures ids == ExistingIds(employees, rows)
    ensures forall c :: c in ids ==> IdTaken(employees, c)
  {
    ids := [];
    var i := 0;
    while i < |rows|
      invariant 0 <= i <= |rows|
      invariant AllHaveRequired(rows[..i])
      invariant ids == ExistingIds(employees, rows[..i])
      invariant forall c :: c in ids ==> IdTaken(employees, c)
    {
      assert rows[..i + 1][..i] == rows[..i];
      assert rows[..i + 1][i] == rows[i];
      if IdTaken(employees, rows[i][EmployeeIdColumn]) {
        ids := ids + [rows[i][EmployeeIdColumn]];
      }
      i := i + 1;
    }
    assert rows[..i] == rows;
  }

  /** The email loop. */
  method CollectEmailIssues(rows: seq<Row>) returns (issues: Option<seq<EmailIssue>>)
    requires AllHaveRequired(rows)
    ensures issues == EmailIssues(rows)
  {
    var found: seq<EmailIssue> := [];
    var i := 0;
    while i < |rows|
      invariant 0 <= i <= |rows|
      invariant AllHaveRequired(rows[..i])
      invariant EmailIssues(rows[..i]) == Some(found)
    {
      assert rows[..i + 1][..i] == rows[..i];
      assert rows[..i + 1][i] == rows[i];
      var email := rows[i]["Email"];
      if EmailRaises(email) {
        EmailIssuesFailFrom(rows, i + 1);
        return None;
      }
      if BadEmail(email) {
        found := found + [EmailIssue(i + 2, email.s)];
      }
      i := i + 1;
    }
    assert rows[..i] == rows;
    issues := Some(found);
  }

  /** Once the email loop has failed, later rows do not bring it back. */
  lemma {:induction false} EmailIssuesFailFrom(rows: seq<Row>, n: int)
    requires AllHaveRequired(rows) && 0 < n <= |rows|
    requires AllHaveRequired(rows[..n]) && EmailIssues(rows[..n]).None?
    ensures EmailIssues(rows).None?
    decreases |rows| - n
  {
    if n < |rows| {
      assert rows[..n + 1][..n] == rows[..n];
      PrefixHasRequired(rows, n + 1);
      EmailIssuesFailFrom(rows, n + 1);
    } else {
      assert rows[..n] == rows;
    }
  }

  /** validate_employee_import: the header check, then (for a valid header) the three
      warnings; nothing is stored. */
  method ValidateEmployeeImport(db: ImportDatabase, users: map<Id, Models.User>, roles: map<Id, Models.Role>, uid: Id,
                                file: Option<Upload>) returns (r: Result<Validation, Error>)
    requires ReadsRectangular(file)
    ensures Decorators.RoleRequired(users, roles, uid, {Decorators.Admin}).Err?
            ==> r == Err(Decorators.RoleRequired(users, roles, uid, {Decorators.Admin}).error)
    ensures Decorators.RoleRequired(users, roles, uid, {Decorators.Admin}).Ok? ==>
            if file.None? then r == Err(NoFile)
            else if file.value.filename == "" then r == Err(NoFileSelected)
            else if !AllowedFile(file.value.filename) then r == Err(InvalidFileType)
            else if Read(file.value).None? then r == Err(Internal)
            else
              var f := Read(file.value).value;
              var missing := MissingFrom(RequiredColumns, f.columns);
              if missing != [] then
                r == Ok(Validation(false, |f.rows|, missing, f.columns, f.rows[..if |f.rows| < 3 then |f.rows| else 3], []))
              else
                && AllHaveRequired(f.rows)
                && (r.Err? <==> EmailIssues(f.rows).None?)
                && (r.Err? ==> r.error == Internal)
                && (r.Ok? ==> r.value == Validation(true, |f.rows|, [], f.columns, f.rows[..if |f.rows| < 3 then |f.rows| else 3],
                                                     Warnings(DuplicateIds(f.rows), ExistingIds(db.employees, f.rows),
                                                              EmailIssues(f.rows).value)))
  {
    var gate := Decorators.RoleRequired(users, roles, uid, {Decorators.Admin});
    if gate.Err? {
      return Err(gate.error);
    }
    if file.None? {
      return Err(NoFile);
    }
    var upload := file.value;
    if upload.filename == "" {
      return Err(NoFileSelected);
    }
    if !AllowedFile(upload.filename) {
      return Err(InvalidFileType);
    }
    var frame := Read(upload);
    if frame.None? {
      return Err(Internal);
    }
    var f := frame.value;
    var missing := MissingFrom(RequiredColumns, f.columns);
    var sample := f.rows[..if |f.rows| < 3 then |f.rows| else 3];
    if missing != [] {
      return Ok(Validation(false, |f.rows|, missing, f.columns, sample, []));
    }
    RequiredColumnsInRows(f);
    var dups := DuplicateIds(f.rows);
    var existing := CollectExistingIds(db.employees, f.rows);
    var issues := CollectEmailIssues(f.rows);
    if issues.None? {
      return Err(Internal);
    }
    r := Ok(Validation(true, |f.rows|, [], f.columns, sample, Warnings(dups, existing, issues.value)));
  }

  /** Two rows with the same Employee ID are both reported as duplicates, and an id that
      occurs once is not. */
  lemma DuplicateIdsCorrect(rows: seq<Row>, i: int)
    requires AllHaveRequired(rows) && 0 <= i < |rows|
    ensures rows[i][EmployeeIdColumn] in DuplicateIds(rows)
            <==> exists j :: 0 <= j < |rows| && j != i && rows[j][EmployeeIdColumn] == rows[i][EmployeeIdColumn]
  {
    var c := rows[i][EmployeeIdColumn];
    if c in DuplicateIds(rows) {
      var i' :| 0 <= i' < |rows| && (exists j :: 0 <= j < |rows| && j != i' && rows[j][EmployeeIdColumn] == rows[i'][EmployeeIdColumn])
                && rows[i'][EmployeeIdColumn] == c;
      if i' == i {
      } else {
        assert rows[i'][EmployeeIdColumn] == rows[i][EmployeeIdColumn];
      }
    }
  }
}
