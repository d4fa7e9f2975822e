/**
  The seeding script: remove the database file, create the five tables with
  foreign-key enforcement on, insert the fixed rows table by table, and close
  the handle whatever happens. The engine's constraint checks on each insert
  are modelled, so that the seed rows are shown to pass them all.
 */
module Seed {
  import opened Wrappers
  import opened Driver
  import opened Catalog
  import opened Http
  import opened JsText
  import TablesRoute
  import PreviewRoute

  // ---------------------------------------------------------------------------
  // Rows

  datatype Department = Department(deptId: int, deptName: string)

  datatype Employee = Employee(
    empId: int, name: string, gender: string, salary: int, deptId: int,
    joinDate: string, email: string, city: string)

  datatype Project = Project(projId: int, title: string, budget: int, startDate: string, endDate: string)

  /** A row of `employee_projects`. */
  datatype Assignment = Assignment(id: int, empId: int, projId: int, role: string, hoursPerWeek: int)

  datatype Student = Student(studentId: int, name: string, semester: int, marks: int, department: string)

  // ---------------------------------------------------------------------------
  // The seed rows (lib/init-db.ts, lines 73-146)

  const Departments: seq<Department> := [
    Department(1, "Engineering"), Department(2, "Sales"), Department(3, "Marketing"),
    Department(4, "Support"), Department(5, "HR")
  ]

  const Employees: seq<Employee> := [
    Employee(101, "Ramesh Kumar", "M", 60000, 2, "2019-02-12", "ramesh.kumar@example.com", "Pune"),
    Employee(102, "Suresh Patil", "M", 80000, 1, "2018-06-01", "suresh.patil@example.com", "Mumbai"),
    Employee(103, "Priya Sharma", "F", 48000, 4, "2020-09-15", "priya.sharma@example.com", "Pune"),
    Employee(104, "Anita Desai", "F", 52000, 3, "2021-03-20", "anita.desai@example.com", "Nagpur"),
    Employee(105, "Rahul Singh", "M", 72000, 1, "2017-11-05", "rahul.singh@example.com", "Pune"),
    Employee(106, "Kavita Joshi", "F", 55000, 3, "2022-01-10", "kavita.joshi@example.com", "Mumbai"),
    Employee(107, "Vikram Rao", "M", 95000, 1, "2015-07-22", "vikram.rao@example.com", "Bengaluru"),
    Employee(108, "Neha Kulkarni", "F", 47000, 2, "2023-02-01", "neha.k@example.com", "Pune"),
    Employee(109, "Amit Mehra", "M", 61000, 2, "2019-12-12", "amit.mehra@example.com", "Delhi"),
    Employee(110, "Sunita Nair", "F", 88000, 1, "2016-08-19", "sunita.nair@example.com", "Chennai"),
    Employee(111, "Kiran Patil", "M", 43000, 4, "2020-07-07", "kiran.patil@example.com", "Pune"),
    Employee(112, "Sana Khan", "F", 66000, 5, "2018-04-04", "sana.khan@example.com", "Mumbai"),
    Employee(113, "Manish Gupta", "M", 71000, 1, "2017-10-13", "manish.gupta@example.com", "Noida"),
    Employee(114, "Meera Rao", "F", 58000, 3, "2019-03-25", "meera.rao@example.com", "Hyderabad"),
    Employee(115, "Aditya Verma", "M", 54000, 4, "2021-12-01", "aditya.verma@example.com", "Pune"),
    Employee(116, "Divya Singh", "F", 67000, 1, "2016-01-15", "divya.singh@example.com", "Mumbai"),
    Employee(117, "Kunal Shah", "M", 46000, 2, "2022-06-21", "kunal.shah@example.com", "Surat"),
    Employee(118, "Pooja Kapoor", "F", 49000, 5, "2020-05-11", "pooja.kapoor@example.com", "Lucknow"),
    Employee(119, "Rohit N", "M", 53000, 3, "2019-09-09", "rohit.n@example.com", "Bengaluru"),
    Employee(120, "Siddharth T", "M", 87000, 1, "2014-02-02", "siddharth.t@example.com", "Pune")
  ]

  const Projects: seq<Project> := [
    Project(1, "Website Revamp", 120000, "2023-01-01", "2023-06-30"),
    Project(2, "Mobile App", 250000, "2022-05-01", "2023-05-01"),
    Project(3, "Cloud Migration", 500000, "2021-09-01", "2022-12-31"),
    Project(4, "Sales Automation", 80000, "2023-03-15", "2023-12-31"),
    Project(5, "Marketing Campaign 2024", 150000, "2024-01-10", "2024-04-30")
  ]

  const Assignments: seq<Assignment> := [
    Assignment(1, 102, 1, "Lead", 20), Assignment(2, 105, 2, "Manager", 25),
    Assignment(3, 107, 3, "Architect", 15), Assignment(4, 101, 4, "Sales Lead", 10),
    Assignment(5, 110, 2, "QA", 15), Assignment(6, 116, 3, "Dev", 30),
    Assignment(7, 113, 1, "DevOps", 12), Assignment(8, 114, 5, "Marketing", 18),
    Assignment(9, 106, 5, "Designer", 12), Assignment(10, 120, 3, "Senior Dev", 20)
  ]

  const Students: seq<Student> := [
    Student(1, "Ram", 4, 78, "Comp Engg"), Student(2, "Sunita", 6, 92, "IT"),
    Student(3, "Kiran", 2, 86, "Comp Engg"), Student(4, "Mansi", 8, 69, "Civil"),
    Student(5, "Deepak", 4, 55, "Mech"), Student(6, "Suhana", 6, 89, "IT"),
    Student(7, "Ishan", 2, 74, "Comp Engg")
  ]

  // ---------------------------------------------------------------------------
  // Keys

  function DeptIds(ds: seq<Department>): (ks: seq<int>)
    ensures |ks| == |ds| && forall i :: 0 <= i < |ds| ==> ks[i] == ds[i].deptId
  {
    seq(|ds|, i requires 0 <= i < |ds| => ds[i].deptId)
  }

  function DeptNames(ds: seq<Department>): (ns: seq<string>)
    ensures |ns| == |ds| && forall i :: 0 <= i < |ds| ==> ns[i] == ds[i].deptName
  {
    seq(|ds|, i requires 0 <= i < |ds| => ds[i].deptName)
  }

  function EmpIds(es: seq<Employee>): (ks: seq<int>)
    ensures |ks| == |es| && forall i :: 0 <= i < |es| ==> ks[i] == es[i].empId
  {
    seq(|es|, i requires 0 <= i < |es| => es[i].empId)
  }

  function ProjIds(ps: seq<Project>): (ks: seq<int>)
    ensures |ks| == |ps| && forall i :: 0 <= i < |ps| ==> ks[i] == ps[i].projId
  {
    seq(|ps|, i requires 0 <= i < |ps| => ps[i].projId)
  }

  function AssignmentIds(as_: seq<Assignment>): (ks: seq<int>)
    ensures |ks| == |as_| && forall i :: 0 <= i < |as_| ==> ks[i] == as_[i].id
  {
    seq(|as_|, i requires 0 <= i < |as_| => as_[i].id)
  }

  function StudentIds(ss: seq<Student>): (ks: seq<int>)
    ensures |ks| == |ss| && forall i :: 0 <= i < |ss| ==> ks[i] == ss[i].studentId
  {
    seq(|ss|, i requires 0 <= i < |ss| => ss[i].studentId)
  }

  /** No value occurs twice: a PRIMARY KEY or UNIQUE column. */
  predicate Distinct<T(==)>(ks: seq<T>) {
    forall i, j :: 0 <= i < j < |ks| ==> ks[i] != ks[j]
  }

  predicate Increasing(ks: seq<int>) {
    forall i :: 0 < i < |ks| ==> ks[i - 1] < ks[i]
  }

  lemma {:induction false} IncreasingDistinct(ks: seq<int>)
    requires Increasing(ks)
    ensures Distinct(ks)
    ensures forall i, j :: 0 <= i < j < |ks| ==> ks[i] < ks[j]
  {
    if |ks| > 1 {
      var tail := ks[1..];
      IncreasingDistinct(tail);
      forall i, j | 0 <= i < j < |ks| ensures ks[i] < ks[j] {
        if i == 0 {
          if j > 1 {
            assert tail[0] < tail[j - 1];
          }
        } else {
          assert tail[i - 1] < tail[j - 1];
        }
      }
    }
  }

  /** Inserting the values one at a time, each new one absent from those
      before it, is exactly what a column without repeats allows. */
  lemma DistinctByInsertion<T>(ks: seq<T>)
    ensures Distinct(ks) <==> forall k :: 0 <= k < |ks| ==> ks[k] !in ks[..k]
  {
    if Distinct(ks) {
      forall k | 0 <= k < |ks| ensures ks[k] !in ks[..k] {
      }
    }
    if forall k :: 0 <= k < |ks| ==> ks[k] !in ks[..k] {
      forall i, j | 0 <= i < j < |ks| ensures ks[i] != ks[j] {
        assert ks[..j][i] == ks[i];
      }
    }
  }

  /** The keys of the seed rows, and the foreign keys they carry. */
  lemma ParentKeys()
    ensures forall i :: 0 <= i < |Departments| ==> Departments[i].deptId == i + 1
    ensures forall i :: 0 <= i < |Projects| ==> Projects[i].projId == i + 1
    ensures forall i :: 0 <= i < |Students| ==> Students[i].studentId == i + 1
  {
  }

  lemma EmployeeKeys()
    ensures forall i :: 0 <= i < |Employees| ==> Employees[i].empId == 101 + i && 1 <= Employees[i].deptId <= 5
  {
  }

  lemma AssignmentKeys()
    ensures forall i :: 0 <= i < |Assignments| ==>
      Assignments[i].id == i + 1 && 101 <= Assignments[i].empId <= 120 && 1 <= Assignments[i].projId <= 5
  {
  }

  // ---------------------------------------------------------------------------
  // The tables and their constraints

  /** The five tables' contents, in insertion order. */
  datatype Tables = Tables(
    departments: seq<Department>, employees: seq<Employee>, projects: seq<Project>,
    assignments: seq<Assignment>, students: seq<Student>)

  const NoRows := Tables([], [], [], [], [])

  /** What the script leaves behind. */
  const Seeded := Tables(Departments, Employees, Projects, Assignments, Students)

  /** The declared constraints (lib/init-db.ts, lines 27-68): every PRIMARY
      KEY and the UNIQUE `dept_name` without repeats, and every FOREIGN KEY
      naming an existing parent row. The NOT NULL columns always hold a value,
      since every field of a row is present. */
  predicate Constraints(t: Tables) {
    && Distinct(DeptIds(t.departments)) && Distinct(DeptNames(t.departments))
    && Distinct(EmpIds(t.employees)) && Distinct(ProjIds(t.projects))
    && Distinct(AssignmentIds(t.assignments)) && Distinct(StudentIds(t.students))
    && (forall e :: e in t.employees ==> e.deptId in DeptIds(t.departments))
    && (forall a :: a in t.assignments ==> a.empId in EmpIds(t.employees) && a.projId in ProjIds(t.projects))
  }

  function UniqueFailed(column: string): Fault {
    Fault("SqliteError", "UNIQUE constraint failed: " + column)
  }

  const ForeignKeyFailed := Fault("SqliteError", "FOREIGN KEY constraint failed")

  // The engine's checks on one insert: the error it raises, if any.

  function DepartmentRejection(t: Tables, d: Department): Option<Fault> {
    if d.deptId in DeptIds(t.departments) then Some(UniqueFailed("departments.dept_id"))
    else if d.deptName in DeptNames(t.departments) then Some(UniqueFailed("departments.dept_name"))
    else None
  }

  function EmployeeRejection(t: Tables, e: Employee): Option<Fault> {
    if e.empId in EmpIds(t.employees) then Some(UniqueFailed("employees.emp_id"))
    else if e.deptId !in DeptIds(t.departments) then Some(ForeignKeyFailed)
    else None
  }

  function ProjectRejection(t: Tables, p: Project): Option<Fault> {
    if p.projId in ProjIds(t.projects) then Some(UniqueFailed("projects.proj_id")) else None
  }

  function AssignmentRejection(t: Tables, a: Assignment): Option<Fault> {
    if a.id in AssignmentIds(t.assignments) then Some(UniqueFailed("employee_projects.id"))
    else if a.empId !in EmpIds(t.employees) || a.projId !in ProjIds(t.projects) then Some(ForeignKeyFailed)
    else None
  }

  function StudentRejection(t: Tables, s: Student): Option<Fault> {
    if s.studentId in StudentIds(t.students) then Some(UniqueFailed("students.student_id")) else None
  }

  lemma DistinctAppend<T>(ks: seq<T>, k: T)
    requires Distinct(ks) && k !in ks
    ensures Distinct(ks + [k])
  {
  }

  /** An insert the engine admits keeps every constraint. */
  lemma AdmittedDepartment(t: Tables, d: Department)
    requires Constraints(t) && DepartmentRejection(t, d).None?
    ensures Constraints(t.(departments := t.departments + [d]))
  {
    assert DeptIds(t.departments + [d]) == DeptIds(t.departments) + [d.deptId];
    assert DeptNames(t.departments + [d]) == DeptNames(t.departments) + [d.deptName];
    DistinctAppend(DeptIds(t.departments), d.deptId);
    DistinctAppend(DeptNames(t.departments), d.deptName);
  }

  lemma AdmittedEmployee(t: Tables, e: Employee)
    requires Constraints(t) && EmployeeRejection(t, e).None?
    ensures Constraints(t.(employees := t.employees + [e]))
  {
    assert EmpIds(t.employees + [e]) == EmpIds(t.employees) + [e.empId];
    DistinctAppend(EmpIds(t.employees), e.empId);
  }

  lemma AdmittedProject(t: Tables, p: Project)
    requires Constraints(t) && ProjectRejection(t, p).None?
    ensures Constraints(t.(projects := t.projects + [p]))
  {
    assert ProjIds(t.projects + [p]) == ProjIds(t.projects) + [p.projId];
    DistinctAppend(ProjIds(t.projects), p.projId);
  }

  lemma AdmittedAssignment(t: Tables, a: Assignment)
    requires Constraints(t) && AssignmentRejection(t, a).None?
    ensures Constraints(t.(assignments := t.assignments + [a]))
  {
    assert AssignmentIds(t.assignments + [a]) == AssignmentIds(t.assignments) + [a.id];
    DistinctAppend(AssignmentIds(t.assignments), a.id);
  }

  lemma AdmittedStudent(t: Tables, s: Student)
    requires Constraints(t) && StudentRejection(t, s).None?
    ensures Constraints(t.(students := t.students + [s]))
  {
    assert StudentIds(t.students + [s]) == StudentIds(t.students) + [s.studentId];
    DistinctAppend(StudentIds(t.students), s.studentId);
  }

  // ---------------------------------------------------------------------------
  // The inserts, table by table (`rows.forEach(r => insert.run(...r))`)

  /** Rows that the engine accepts into an empty table, one after another. */
  predicate DepartmentsAdmissible(rows: seq<Department>) {
    Distinct(DeptIds(rows)) && Distinct(DeptNames(rows))
  }

  predicate EmployeesAdmissible(t: Tables, rows: seq<Employee>) {
    Distinct(EmpIds(rows)) && forall e :: e in rows ==> e.deptId in DeptIds(t.departments)
  }

  predicate AssignmentsAdmissible(t: Tables, rows: seq<Assignment>) {
    && Distinct(AssignmentIds(rows))
    && forall a :: a in rows ==> a.empId in EmpIds(t.employees) && a.projId in ProjIds(t.projects)
  }

  /** A repeated key in the rows so far, with the new row's key among them. */
  lemma RepeatBreaksDistinct<T>(ks: seq<T>, k: nat)
    requires k < |ks| && ks[k] in ks[..k]
    ensures !Distinct(ks)
  {
    DistinctByInsertion(ks);
  }

  /** Inserting `rows` into the empty `departments` table: every insert is
      accepted exactly when the rows repeat neither an id nor a name, and then
      the table holds the rows in order. */
  method InsertDepartments(t: Tables, rows: seq<Department>) returns (r: Tables, fault: Option<Fault>)
    requires Constraints(t) && t.departments == [] && t.employees == []
    ensures fault.None? <==> DepartmentsAdmissible(rows)
    ensures fault.None? ==> r == t.(departments := rows) && Constraints(r)
  {
    r := t;
    for k := 0 to |rows|
      invariant r == t.(departments := rows[..k]) && Constraints(r)
      invariant DepartmentsAdmissible(rows[..k])
    {
      var d := rows[k];
      assert DeptIds(rows[..k]) == DeptIds(rows)[..k];
      assert DeptNames(rows[..k]) == DeptNames(rows)[..k];
      fault := DepartmentRejection(r, d);
      if fault.Some? {
        if d.deptId in DeptIds(rows[..k]) {
          RepeatBreaksDistinct(DeptIds(rows), k);
        } else {
          RepeatBreaksDistinct(DeptNames(rows), k);
        }
        return;
      }
      AdmittedDepartment(r, d);
      assert rows[..k + 1] == rows[..k] + [d];
      r := r.(departments := r.departments + [d]);
    }
    assert rows[..|rows|] == rows;
    fault := None;
  }

  /** Inserting `rows` into the empty `employees` table: accepted exactly when
      no id repeats and every department exists. */
  method InsertEmployees(t: Tables, rows: seq<Employee>) returns (r: Tables, fault: Option<Fault>)
    requires Constraints(t) && t.employees == []
    ensures fault.None? <==> EmployeesAdmissible(t, rows)
    ensures fault.None? ==> r == t.(employees := rows) && Constraints(r)
  {
    r := t;
    for k := 0 to |rows|
      invariant r == t.(employees := rows[..k]) && Constraints(r)
      invariant EmployeesAdmissible(t, rows[..k])
    {
      var e := rows[k];
      assert EmpIds(rows[..k]) == EmpIds(rows)[..k];
      fault := EmployeeRejection(r, e);
      if fault.Some? {
        if e.empId in EmpIds(rows[..k]) {
          RepeatBreaksDistinct(EmpIds(rows), k);
        } else {
          assert e in rows;
        }
        return;
      }
      AdmittedEmployee(r, e);
      assert rows[..k + 1] == rows[..k] + [e];
      r := r.(employees := r.employees + [e]);
    }
    assert rows[..|rows|] == rows;
    fault := None;
  }

  /** Inserting `rows` into the empty `projects` table: accepted exactly when
      no id repeats. */
  method InsertProjects(t: Tables, rows: seq<Project>) returns (r: Tables, fault: Option<Fault>)
    requires Constraints(t) && t.projects == []
    ensures fault.None? <==> Distinct(ProjIds(rows))
    ensures fault.None? ==> r == t.(projects := rows) && Constraints(r)
  {
    r := t;
    for k := 0 to |rows|
      invariant r == t.(projects := rows[..k]) && Constraints(r)
      invariant Distinct(ProjIds(rows[..k]))
    {
      var p := rows[k];
      assert ProjIds(rows[..k]) == ProjIds(rows)[..k];
      fault := ProjectRejection(r, p);
      if fault.Some? {
        RepeatBreaksDistinct(ProjIds(rows), k);
        return;
      }
      AdmittedProject(r, p);
      assert rows[..k + 1] == rows[..k] + [p];
      r := r.(projects := r.projects + [p]);
    }
    assert rows[..|rows|] == rows;
    fault := None;
  }

  /** Inserting `rows` into the empty `employee_projects` table: accepted
      exactly when no id repeats and every employee and project exists. */
  method InsertAssignments(t: Tables, rows: seq<Assignment>) returns (r: Tables, fault: Option<Fault>)
    requires Constraints(t) && t.assignments == []
    ensures fault.None? <==> AssignmentsAdmissible(t, rows)
    ensures fault.None? ==> r == t.(assignments := rows) && Constraints(r)
  {
    r := t;
    for k := 0 to |rows|
      invariant r == t.(assignments := rows[..k]) && Constraints(r)
      invariant AssignmentsAdmissible(t, rows[..k])
    {
      var a := rows[k];
      assert AssignmentIds(rows[..k]) == AssignmentIds(rows)[..k];
      fault := AssignmentRejection(r, a);
      if fault.Some? {
        if a.id in AssignmentIds(rows[..k]) {
          RepeatBreaksDistinct(AssignmentIds(rows), k);
        } else {
          assert a in rows;
        }
        return;
      }
      AdmittedAssignment(r, a);
      assert rows[..k + 1] == rows[..k] + [a];
      r := r.(assignments := r.assignments + [a]);
    }
    assert rows[..|rows|] == rows;
    fault := None;
  }

  /** Inserting `rows` into the empty `students` table: accepted exactly when
      no id repeats. */
  method InsertStudents(t: Tables, rows: seq<Student>) returns (r: Tables, fault: Option<Fault>)
    requires Constraints(t) && t.students == []
    ensures fault.None? <==> Distinct(StudentIds(rows))
    ensures fault.None? ==> r == t.(students := rows) && Constraints(r)
  {
    r := t;
    for k := 0 to |rows|
      invariant r == t.(students := rows[..k]) && Constraints(r)
      invariant Distinct(StudentIds(rows[..k]))
    {
      var s := rows[k];
      assert StudentIds(rows[..k]) == StudentIds(rows)[..k];
      fault := StudentRejection(r, s);
      if fault.Some? {
        RepeatBreaksDistinct(StudentIds(rows), k);
        return;
      }
      AdmittedStudent(r, s);
      assert rows[..k + 1] == rows[..k] + [s];
      r := r.(students := r.students + [s]);
    }
    assert rows[..|rows|] == rows;
    fault := None;
  }

  // The seed rows pass every check, in the order the script inserts them:
  // departments before employees, and employees and projects before the
  // assignments that refer to them.

  lemma DepartmentsSeedAdmissible()
    ensures DepartmentsAdmissible(Departments)
  {
    ParentKeys();
    IncreasingDistinct(DeptIds(Departments));
    var ns := DeptNames(Departments);
    // the five names differ already in length
    assert |ns[0]| == 11 && |ns[1]| == 5 && |ns[2]| == 9 && |ns[3]| == 7 && |ns[4]| == 2;
    forall i, j | 0 <= i < j < |ns| ensures ns[i] != ns[j] {
      assert |ns[i]| != |ns[j]|;
    }
  }

  lemma EmployeesSeedAdmissible(t: Tables)
    requires t.departments == Departments
    ensures EmployeesAdmissible(t, Employees)
  {
    ParentKeys();
    EmployeeKeys();
    IncreasingDistinct(EmpIds(Employees));
    forall e | e in Employees ensures e.deptId in DeptIds(t.departments) {
      assert e.deptId == Departments[e.deptId - 1].deptId;
    }
  }

  lemma ProjectsSeedAdmissible()
    ensures Distinct(ProjIds(Projects))
  {
    ParentKeys();
    IncreasingDistinct(ProjIds(Projects));
  }

  lemma AssignmentsSeedAdmissible(t: Tables)
    requires t.employees == Employees && t.projects == Projects
    ensures AssignmentsAdmissible(t, Assignments)
  {
    ParentKeys();
    EmployeeKeys();
    AssignmentKeys();
    IncreasingDistinct(AssignmentIds(Assignments));
    forall a | a in Assignments ensures a.empId in EmpIds(t.employees) && a.projId in ProjIds(t.projects) {
      assert a.empId == Employees[a.empId - 101].empId;
      assert a.projId == Projects[a.projId - 1].projId;
    }
  }

  lemma StudentsSeedAdmissible()
    ensures Distinct(StudentIds(Students))
  {
    ParentKeys();
    IncreasingDistinct(StudentIds(Students));
  }

  /** `initDatabase`. `fileExists` says whether `app.db` is there beforehand;
      the faults are the driver's, for opening the file, running the schema
      script and closing. The result is the tables left behind and the error
      the call throws, if any. */
  method InitDatabase(fileExists: bool, openFault: Option<Fault>, schemaFault: Option<Fault>, closeFault: Option<Fault>)
    returns (removed: bool, connected: bool, closed: bool, tables: Tables, thrown: Option<Fault>)
    ensures removed == fileExists
    ensures connected <==> openFault.None?
    ensures closed == connected
    ensures thrown == if openFault.Some? then openFault else if closeFault.Some? then closeFault else schemaFault
    ensures thrown.None? ==> tables == Seeded && Constraints(tables)
  {
    // fs.unlinkSync: the new database starts empty whatever was there.
    removed := fileExists;
    tables := NoRows;
    if openFault.Some? {
      return removed, false, false, tables, openFault;
    }
    connected := true;
    // try
    if schemaFault.Some? {
      // catch: logged and rethrown
      thrown := schemaFault;
    } else {
      var fault: Option<Fault>;
      DepartmentsSeedAdmissible();
      tables, fault := InsertDepartments(tables, Departments);
      EmployeesSeedAdmissible(tables);
      tables, fault := InsertEmployees(tables, Employees);
      ProjectsSeedAdmissible();
      tables, fault := InsertProjects(tables, Projects);
      AssignmentsSeedAdmissible(tables);
      tables, fault := InsertAssignments(tables, Assignments);
      StudentsSeedAdmissible();
      tables, fault := InsertStudents(tables, Students);
      thrown := fault;
    }
    // finally: db.close(), whose own error replaces the one in flight
    closed := true;
    if closeFault.Some? {
      thrown := closeFault;
    }
  }

  // ---------------------------------------------------------------------------
  // The database the script leaves behind, as the routes see it

  const DepartmentsTable := "departments"
  const EmployeesTable := "employees"
  const ProjectsTable := "projects"
  const AssignmentsTable := "employee_projects"
  const StudentsTable := "students"

  /** `sqlite_master` after the schema script, in creation order. The UNIQUE
      `dept_name` column gets an automatic index; an INTEGER PRIMARY KEY is the
      rowid and gets none. */
  const SeedCatalog := [
    CatalogEntry("table", DepartmentsTable),
    CatalogEntry("index", "sqlite_autoindex_departments_1"),
    CatalogEntry("table", EmployeesTable),
    CatalogEntry("table", ProjectsTable),
    CatalogEntry("table", AssignmentsTable),
    CatalogEntry("table", StudentsTable)
  ]

  /** The listing of a freshly seeded database. */
  const SeedListing := [DepartmentsTable, AssignmentsTable, EmployeesTable, ProjectsTable, StudentsTable]

  /** A name differing from "sqlite" at one of its first six characters,
      ignoring ASCII case, is not hidden from the listing. */
  lemma Unhidden(name: string, k: nat)
    requires k < 6 <= |name| && AsciiLower(name[k]) != "sqlite"[k]
    ensures !Like(name, "sqlite_%")
  {
    SqlitePattern(name);
    assert AsciiLower(name[k]) != SqlitePrefix[k];
  }

  /** A shared prefix does not change the order. */
  lemma {:induction false} LexLeCommonPrefix(p: string, a: string, b: string)
    ensures LexLe(p + a, p + b) <==> LexLe(a, b)
  {
    if p != [] {
      LexLeCommonPrefix(p[1..], a, b);
      assert (p + a)[0] == p[0] == (p + b)[0];
      assert (p + a)[1..] == p[1..] + a;
      assert (p + b)[1..] == p[1..] + b;
    } else {
      assert p + a == a && p + b == b;
    }
  }

  /** Names with different first characters are ordered by them. */
  lemma FirstCharacterOrder(a: string, b: string)
    requires a != [] && b != [] && a[0] != b[0]
    ensures LexLe(a, b) <==> a[0] < b[0]
  {
  }

  /** Neighbours in order make the whole sequence sorted. */
  lemma {:induction false} AdjacentSorted(s: seq<string>)
    requires forall i :: 0 < i < |s| ==> LexLe(s[i - 1], s[i])
    ensures Sorted(s)
  {
    if |s| > 1 {
      AdjacentSorted(s[1..]);
      forall j | 0 < j < |s| ensures LexLe(s[0], s[j]) {
        if j > 1 {
          assert LexLe(s[1..][0], s[1..][j - 1]);
          LexLeTransitive(s[0], s[1], s[j]);
        }
      }
      forall i, j | 0 <= i < j < |s| ensures LexLe(s[i], s[j]) {
        if i > 0 {
          assert LexLe(s[1..][i - 1], s[1..][j - 1]);
        }
      }
    }
  }

  lemma SortedFive(a: string, b: string, c: string, d: string, e: string)
    requires LexLe(a, b) && LexLe(b, c) && LexLe(c, d) && LexLe(d, e)
    ensures Sorted([a, b, c, d, e])
  {
    AdjacentSorted([a, b, c, d, e]);
  }

  /** The listing is in ascending order; "employee_projects" sorts before
      "employees", since '_' comes before 's'. */
  lemma SeedListingSorted()
    ensures Sorted(SeedListing)
  {
    FirstCharacterOrder(DepartmentsTable, AssignmentsTable);
    FirstCharacterOrder("_projects", "s");
    LexLeCommonPrefix("employee", "_projects", "s");
    assert AssignmentsTable == "employee" + "_projects" && EmployeesTable == "employee" + "s";
    FirstCharacterOrder(EmployeesTable, ProjectsTable);
    FirstCharacterOrder(ProjectsTable, StudentsTable);
    SortedFive(DepartmentsTable, AssignmentsTable, EmployeesTable, ProjectsTable, StudentsTable);
  }

  lemma UserTablesCons(e: CatalogEntry, rest: seq<CatalogEntry>)
    ensures UserTableNames([e] + rest) == (if Listed(e) then [e.name] else []) + UserTableNames(rest)
  {
    assert ([e] + rest)[1..] == rest;
  }

  /** The user tables of a catalog of five tables and one other entry after the first. */
  lemma UserTablesOfFive(a: string, x: CatalogEntry, b: string, c: string, d: string, e: string)
    requires x.kind != "table"
    requires !Like(a, "sqlite_%") && !Like(b, "sqlite_%") && !Like(c, "sqlite_%")
    requires !Like(d, "sqlite_%") && !Like(e, "sqlite_%")
    ensures var t := [CatalogEntry("table", a), x, CatalogEntry("table", b), CatalogEntry("table", c),
                      CatalogEntry("table", d), CatalogEntry("table", e)];
      UserTableNames(t) == [a, b, c, d, e]
  {
    var t5 := [CatalogEntry("table", e)];
    UserTablesCons(t5[0], []);
    assert [t5[0]] + [] == t5;
    var t4 := [CatalogEntry("table", d)] + t5;
    UserTablesCons(CatalogEntry("table", d), t5);
    var t3 := [CatalogEntry("table", c)] + t4;
    UserTablesCons(CatalogEntry("table", c), t4);
    var t2 := [CatalogEntry("table", b)] + t3;
    UserTablesCons(CatalogEntry("table", b), t3);
    var t1 := [x] + t2;
    UserTablesCons(x, t2);
    var t0 := [CatalogEntry("table", a)] + t1;
    UserTablesCons(CatalogEntry("table", a), t1);
    assert UserTableNames(t0) == [a] + ([b] + ([c] + ([d] + [e])));
    assert [a] + ([b] + ([c] + ([d] + [e]))) == [a, b, c, d, e];
    assert t0 == [CatalogEntry("table", a), x, CatalogEntry("table", b), CatalogEntry("table", c),
                  CatalogEntry("table", d), CatalogEntry("table", e)];
  }

  lemma PermutedFour<T>(a: T, b: T, c: T, d: T)
    ensures multiset([a, b, c, d]) == multiset([a, d, b, c])
  {
  }

  /** Moving the fourth of five elements up to second place. */
  lemma PermutedFive<T>(a: T, b: T, c: T, d: T, e: T)
    ensures multiset([a, b, c, d, e]) == multiset([a, d, b, c, e])
  {
    PermutedFour(a, b, c, d);
    assert [a, b, c, d] + [e] == [a, b, c, d, e];
    assert [a, d, b, c] + [e] == [a, d, b, c, e];
  }

  /** The listing of the seeded catalog: the five tables in ascending order,
      without the automatic index. */
  lemma SeedCatalogListing()
    ensures ListNames(SeedCatalog) == SeedListing
  {
    Unhidden(DepartmentsTable, 0);
    Unhidden(EmployeesTable, 0);
    Unhidden(ProjectsTable, 0);
    Unhidden(AssignmentsTable, 0);
    Unhidden(StudentsTable, 1);
    UserTablesOfFive(DepartmentsTable, SeedCatalog[1], EmployeesTable, ProjectsTable, AssignmentsTable, StudentsTable);
    ListNamesMeaning(SeedCatalog);
    SeedListingSorted();
    PermutedFive(DepartmentsTable, EmployeesTable, ProjectsTable, AssignmentsTable, StudentsTable);
    SortedUnique(ListNames(SeedCatalog), SeedListing);
  }

  // Rows as the driver returns them, columns in declaration order.

  function DepartmentRow(d: Department): Row {
    [("dept_id", Integer(d.deptId)), ("dept_name", Text(d.deptName))]
  }

  function EmployeeRow(e: Employee): Row {
    [("emp_id", Integer(e.empId)), ("name", Text(e.name)), ("gender", Text(e.gender)),
     ("salary", Integer(e.salary)), ("dept_id", Integer(e.deptId)), ("join_date", Text(e.joinDate)),
     ("email", Text(e.email)), ("city", Text(e.city))]
  }

  function ProjectRow(p: Project): Row {
    [("proj_id", Integer(p.projId)), ("title", Text(p.title)), ("budget", Integer(p.budget)),
     ("start_date", Text(p.startDate)), ("end_date", Text(p.endDate))]
  }

  function AssignmentRow(a: Assignment): Row {
    [("id", Integer(a.id)), ("emp_id", Integer(a.empId)), ("proj_id", Integer(a.projId)),
     ("role", Text(a.role)), ("hours_per_week", Integer(a.hoursPerWeek))]
  }

  function StudentRow(s: Student): Row {
    [("student_id", Integer(s.studentId)), ("name", Text(s.name)), ("semester", Integer(s.semester)),
     ("marks", Integer(s.marks)), ("department", Text(s.department))]
  }

  /** Each table's rows, in insertion order. A plain `SELECT *` scans a table
      in rowid order, which is its INTEGER PRIMARY KEY order; the two orders
      agree for ids that increase, as the seed rows' do (`SeedRowidOrder`). */
  function Contents(t: Tables): (m: map<string, seq<Row>>)
    ensures m.Keys == {DepartmentsTable, EmployeesTable, ProjectsTable, AssignmentsTable, StudentsTable}
    ensures |m[DepartmentsTable]| == |t.departments| && |m[EmployeesTable]| == |t.employees|
    ensures |m[ProjectsTable]| == |t.projects| && |m[AssignmentsTable]| == |t.assignments|
    ensures |m[StudentsTable]| == |t.students|
  {
    map[
      DepartmentsTable := seq(|t.departments|, i requires 0 <= i < |t.departments| => DepartmentRow(t.departments[i])),
      EmployeesTable := seq(|t.employees|, i requires 0 <= i < |t.employees| => EmployeeRow(t.employees[i])),
      ProjectsTable := seq(|t.projects|, i requires 0 <= i < |t.projects| => ProjectRow(t.projects[i])),
      AssignmentsTable := seq(|t.assignments|, i requires 0 <= i < |t.assignments| => AssignmentRow(t.assignments[i])),
      StudentsTable := seq(|t.students|, i requires 0 <= i < |t.students| => StudentRow(t.students[i]))]
  }

  /** The seed rows are inserted with increasing ids, so in each table the
      insertion order is the rowid order. */
  lemma SeedRowidOrder()
    ensures Increasing(DeptIds(Seeded.departments)) && Increasing(EmpIds(Seeded.employees))
    ensures Increasing(ProjIds(Seeded.projects)) && Increasing(AssignmentIds(Seeded.assignments))
    ensures Increasing(StudentIds(Seeded.students))
  {
    ParentKeys();
    EmployeeKeys();
    AssignmentKeys();
  }

  /** The file `initDatabase` leaves, as the routes open it later: `base`
      supplies the faults of that later request. */
  function SeededDatabase(base: Database, t: Tables): Database {
    base.(fileExists := true, catalog := SeedCatalog, tables := Contents(t))
  }

  const DepartmentColumns := ["dept_id", "dept_name"]
  const EmployeeColumns := ["emp_id", "name", "gender", "salary", "dept_id", "join_date", "email", "city"]
  const ProjectColumns := ["proj_id", "title", "budget", "start_date", "end_date"]
  const AssignmentColumns := ["id", "emp_id", "proj_id", "role", "hours_per_week"]
  const StudentColumns := ["student_id", "name", "semester", "marks", "department"]

  /** The declared columns of each seeded table. */
  function Columns(name: string): seq<string> {
    if name == DepartmentsTable then DepartmentColumns
    else if name == EmployeesTable then EmployeeColumns
    else if name == ProjectsTable then ProjectColumns
    else if name == AssignmentsTable then AssignmentColumns
    else if name == StudentsTable then StudentColumns
    else []
  }

  /** Every row of a seeded table has the table's declared columns, in order. */
  lemma RowColumns(t: Tables, name: string, i: nat)
    requires name in Contents(t) && i < |Contents(t)[name]|
    ensures Keys(Contents(t)[name][i]) == Columns(name)
  {
    var r := Contents(t)[name][i];
    assert |Keys(r)| == |r|;
  }

  /** After seeding, the listing shows the five tables by name, in ascending
      order, whatever the rows are. */
  lemma SeededListing(base: Database, t: Tables)
    requires base.openFault.None? && base.readFault.None?
    ensures TablesRoute.Respond(SeededDatabase(base, t)) == TablesRoute.Reply(200, TablesRoute.Listing(SeedListing, None))
  {
    SeedCatalogListing();
    TablesRoute.RowNamesOfNameRows(SeedListing);
  }

  lemma NoQuotes()
    ensures forall n :: n in SeedListing ==> '"' !in n
  {
  }

  /** After seeding, every listed table previews with status 200: its first
      twenty rows in the order `t` lists them, with the table's declared
      columns (none when it is empty). */
  lemma SeededPreview(request: Result<Json, Fault>, base: Database, t: Tables)
    requires PreviewRoute.Accepted(request) && PreviewRoute.TableName(request) in SeedListing
    requires base.openFault.None? && base.readFault.None? && base.tableFault.None? && base.closeFault.None?
    ensures var name := PreviewRoute.TableName(request);
      var rows := Take(Contents(t)[name], PreviewRoute.PreviewLimit);
      PreviewRoute.Respond(request, SeededDatabase(base, t)) ==
        PreviewRoute.Reply(200, PreviewRoute.Preview(name, if rows == [] then [] else Columns(name), rows, |rows|))
  {
    var name := PreviewRoute.TableName(request);
    var db := SeededDatabase(base, t);
    SeedCatalogListing();
    ListedTablesExist(SeedCatalog, name);
    NoQuotes();
    PreviewRoute.ExistingTable(request, db);
    assert TableRows(db, name) == Contents(t)[name];
    var rows := Take(Contents(t)[name], PreviewRoute.PreviewLimit);
    if rows != [] {
      RowColumns(t, name, 0);
    }
  }

  /** The seeded tables are all within the preview limit, so each previews in
      full: 5 departments, 20 employees, 5 projects, 10 assignments, 7 students. */
  lemma SeededPreviewComplete()
    ensures |Contents(Seeded)[DepartmentsTable]| == 5 && |Contents(Seeded)[EmployeesTable]| == 20
    ensures |Contents(Seeded)[ProjectsTable]| == 5 && |Contents(Seeded)[AssignmentsTable]| == 10
    ensures |Contents(Seeded)[StudentsTable]| == 7
    ensures forall n :: n in SeedListing ==> Take(Contents(Seeded)[n], PreviewRoute.PreviewLimit) == Contents(Seeded)[n]
  {
  }

  /** `row[column]` is the value under the first key equal to `column`. */
  lemma {:induction false} LookupFirst(row: Row, k: nat, column: string)
    requires k < |row| && row[k].0 == column
    requires forall j :: 0 <= j < k ==> row[j].0 != column
    ensures Lookup(row, column) == Some(row[k].1)
  {
    if k > 0 {
      LookupFirst(row[1..], k - 1, column);
    }
  }

  // The NOT NULL columns read back as the values inserted, of their declared
  // type, in every row.

  lemma DepartmentNotNull(d: Department)
    ensures Lookup(DepartmentRow(d), "dept_name") == Some(Text(d.deptName))
  {
    LookupFirst(DepartmentRow(d), 1, "dept_name");
  }

  lemma EmployeeNotNull(e: Employee)
    ensures Lookup(EmployeeRow(e), "name") == Some(Text(e.name))
    ensures Lookup(EmployeeRow(e), "salary") == Some(Integer(e.salary))
  {
    LookupFirst(EmployeeRow(e), 1, "name");
    LookupFirst(EmployeeRow(e), 3, "salary");
  }

  lemma ProjectNotNull(p: Project)
    ensures Lookup(ProjectRow(p), "title") == Some(Text(p.title))
  {
    LookupFirst(ProjectRow(p), 1, "title");
  }

  lemma StudentNotNull(s: Student)
    ensures Lookup(StudentRow(s), "name") == Some(Text(s.name))
  {
    LookupFirst(StudentRow(s), 1, "name");
  }
}
