/** Membership, delegation and budget of an organization (src/ai/organization.py). */
module Organizations {
  import opened Options

  type Role(==, !new)
  type DepartmentId(==, !new)

  datatype MemberStatus = ACTIVE | SUSPENDED | TERMINATED
  datatype Member = Member(role: Role, department: DepartmentId, status: MemberStatus,
                           submitted: nat, completed: nat, failed: nat)

  datatype Audit =
    | CreateOrganization(budget: real)
    | CreateDepartment(department: DepartmentId)
    | Hire(member: string, role: Role, department: DepartmentId)
    | Assign(member: string, department: DepartmentId)
    | Delegate(manager: string, member: string, completed: bool)
    | Promote(member: string, role: Role)
    | Suspend(member: string)
    | Terminate(member: string)
    | Spend(amount: real)

  type Lists = map<DepartmentId, seq<string>>

  /** `names` lists the members in the order in which they were first hired. */
  datatype Org = Org(names: seq<string>, members: map<string, Member>, departments: Lists,
                     total: real, spent: real, audit: seq<Audit>)

  // ---------------------------------------------------------------- membership

  /** `list.append(x)` for the list of a department, if there is such a department. */
  function Joined(departments: Lists, d: DepartmentId, name: string): Lists {
    if d in departments then departments[d := departments[d] + [name]] else departments
  }

  /** `list.remove(x)`: the first occurrence. */
  function Without(s: seq<string>, name: string): seq<string> {
    if s == [] then [] else if s[0] == name then s[1..] else [s[0]] + Without(s[1..], name)
  }

  function Left(departments: Lists, d: DepartmentId, name: string): Lists {
    if d in departments then departments[d := Without(departments[d], name)] else departments
  }

  /** A new member replaces one of the same name, and leaves that one's place in the order. */
  function Hired(o: Org, name: string, role: Role, d: DepartmentId): Org {
    o.(names := if name in o.members then o.names else o.names + [name],
       members := o.members[name := Member(role, d, ACTIVE, 0, 0, 0)],
       departments := Joined(o.departments, d, name),
       audit := o.audit + [Hire(name, role, d)])
  }

  function Assigned(o: Org, name: string, d: DepartmentId): Org {
    if name !in o.members || d !in o.departments then o
    else
      o.(members := o.members[name := o.members[name].(department := d)],
         departments := Joined(Left(o.departments, o.members[name].department, name), d, name),
         audit := o.audit + [Assign(name, d)])
  }

  function DepartmentCreated(o: Org, d: DepartmentId): Org {
    o.(departments := o.departments[d := []], audit := o.audit + [CreateDepartment(d)])
  }

  // ---------------------------------------------------------------- delegation and budget

  predicate Fits(o: Org, name: string, role: Role) {
    name in o.members && o.members[name].role == role && o.members[name].status == ACTIVE
  }

  /** The member a task goes to: the earliest hired that is active in the role. */
  function FirstActive(o: Org, role: Role, from: nat): Option<string>
    requires from <= |o.names|
    decreases |o.names| - from
  {
    if from == |o.names| then None
    else if Fits(o, o.names[from], role) then Some(o.names[from])
    else FirstActive(o, role, from + 1)
  }

  /** How the member's agent ends a task: what it reports counts and is audited, an exception leaves `delegate`. */
  datatype Ending = Completes | ReportsFailure | Raises

  function Delegated(o: Org, manager: string, name: string, ending: Ending): Org
    requires name in o.members
  {
    var m := o.members[name];
    var n := m.(submitted := m.submitted + 1,
                completed := if ending == Completes then m.completed + 1 else m.completed,
                failed := if ending == ReportsFailure then m.failed + 1 else m.failed);
    o.(members := o.members[name := n],
       audit := if ending == Raises then o.audit else o.audit + [Delegate(manager, name, ending == Completes)])
  }

  predicate Affordable(o: Org, amount: real) {
    0.0 <= amount <= o.total - o.spent
  }

  function Spent(o: Org, amount: real): Org {
    if Affordable(o, amount) then o.(spent := o.spent + amount, audit := o.audit + [Spend(amount)]) else o
  }

  function Updated(o: Org, name: string, m: Member, entry: Audit): Org {
    if name in o.members then o.(members := o.members[name := m], audit := o.audit + [entry]) else o
  }

  // ---------------------------------------------------------------- runs

  datatype Op =
    | CreateDept(department: DepartmentId)
    | HireMember(name: string, role: Role, department: DepartmentId)
    | AssignMember(name: string, department: DepartmentId)
    | DelegateTask(manager: string, role: Role, ending: Ending)
    | PromoteMember(name: string, role: Role)
    | SuspendMember(name: string)
    | TerminateMember(name: string)
    | SpendAmount(amount: real)

  function Step(o: Org, op: Op): Org {
    match op
    case CreateDept(d) => DepartmentCreated(o, d)
    case HireMember(name, role, d) => Hired(o, name, role, d)
    case AssignMember(name, d) => Assigned(o, name, d)
    case DelegateTask(manager, role, ending) =>
      (match FirstActive(o, role, 0)
       case None => o
       case Some(name) => FirstActiveFits(o, role, 0); Delegated(o, manager, name, ending))
    case PromoteMember(name, role) =>
      if name in o.members then Updated(o, name, o.members[name].(role := role), Promote(name, role)) else o
    case SuspendMember(name) =>
      if name in o.members then Updated(o, name, o.members[name].(status := SUSPENDED), Suspend(name)) else o
    case TerminateMember(name) =>
      if name in o.members then Updated(o, name, o.members[name].(status := TERMINATED), Terminate(name)) else o
    case SpendAmount(amount) => Spent(o, amount)
  }

  function Run(total: real, ops: seq<Op>): Org {
    if ops == [] then Org([], map[], map[], total, 0.0, [CreateOrganization(total)])
    else Step(Run(total, ops[..|ops| - 1]), ops[|ops| - 1])
  }

  /** The member chosen is active in the role, and nobody hired before it is. */
  lemma {:induction false} FirstActiveFits(o: Org, role: Role, from: nat)
    requires from <= |o.names|
    ensures match FirstActive(o, role, from)
            case Some(name) =>
              exists i :: from <= i < |o.names| && o.names[i] == name && Fits(o, name, role)
                          && forall j :: from <= j < i ==> !Fits(o, o.names[j], role)
            case None => forall j :: from <= j < |o.names| ==> !Fits(o, o.names[j], role)
    decreases |o.names| - from
  {
    if from < |o.names| {
      if Fits(o, o.names[from], role) {
        assert from <= from < |o.names|;
      } else {
        FirstActiveFits(o, role, from + 1);
      }
    }
  }

  // ---------------------------------------------------------------- each member in one place

  function Times(s: seq<string>, name: string): nat {
    multiset(s)[name]
  }

  /** How often the list of `d` should hold `name`: once for its own members, never for others. */
  function Due(members: map<string, Member>, d: DepartmentId, name: string): nat {
    if name in members && members[name].department == d then 1 else 0
  }

  ghost predicate Placed(members: map<string, Member>, departments: Lists) {
    forall d, name {:trigger Times(departments[d], name)} :: d in departments ==>
      Times(departments[d], name) == Due(members, d, name)
  }

  lemma {:induction false} WithoutRemovesOne(s: seq<string>, name: string)
    ensures multiset(Without(s, name)) == multiset(s) - multiset{name}
  {
    if s != [] {
      assert s == [s[0]] + s[1..];
      if s[0] != name {
        WithoutRemovesOne(s[1..], name);
      }
    }
  }

  lemma TimesJoined(departments: Lists, d: DepartmentId, name: string, c: DepartmentId, other: string)
    requires c in departments
    ensures Times(Joined(departments, d, name)[c], other) ==
            Times(departments[c], other) + if c == d && other == name then 1 else 0
  {
  }

  lemma TimesLeft(departments: Lists, d: DepartmentId, name: string, c: DepartmentId, other: string)
    requires c in departments
    ensures Times(Left(departments, d, name)[c], other) ==
            if c == d && other == name && Times(departments[c], other) > 0 then Times(departments[c], other) - 1
            else Times(departments[c], other)
  {
    WithoutRemovesOne(departments[c], name);
  }

  /** A hire keeps everybody in one place exactly if the name is new, or its old department does not exist. */
  lemma HireKeepsPlacesIff(o: Org, name: string, role: Role, d: DepartmentId)
    requires Placed(o.members, o.departments)
    ensures var n := Hired(o, name, role, d);
            Placed(n.members, n.departments) <==>
            name !in o.members || o.members[name].department !in o.departments
  {
    var n := Hired(o, name, role, d);
    forall c, x | c in o.departments
      ensures Times(n.departments[c], x) == Due(o.members, c, x) + if c == d && x == name then 1 else 0
    {
      TimesJoined(o.departments, d, name, c, x);
      assert Times(o.departments[c], x) == Due(o.members, c, x);
    }
    if name in o.members && o.members[name].department in o.departments {
      var home := o.members[name].department;
      assert Times(n.departments[home], name) != Due(n.members, home, name);
    }
  }

  lemma AssignKeepsPlaces(o: Org, name: string, d: DepartmentId)
    requires Placed(o.members, o.departments)
    ensures var n := Assigned(o, name, d); Placed(n.members, n.departments)
  {
    if name in o.members && d in o.departments {
      var n, home := Assigned(o, name, d), o.members[name].department;
      var left := Left(o.departments, home, name);
      forall c, x | c in n.departments ensures Times(n.departments[c], x) == Due(n.members, c, x) {
        TimesLeft(o.departments, home, name, c, x);
        TimesJoined(left, d, name, c, x);
        assert Times(o.departments[c], x) == Due(o.members, c, x);
      }
    }
  }

  /** No member is recorded in department `d`: true of an identifier just made. */
  predicate Unused(o: Org, d: DepartmentId) {
    d !in o.departments && forall name :: name in o.members ==> o.members[name].department != d
  }

  /** Names given to `hire` are new, and so are the identifiers of departments. */
  predicate Fresh(o: Org, op: Op) {
    match op
    case CreateDept(d) => Unused(o, d)
    case HireMember(name, _, _) => name !in o.members
    case _ => true
  }

  ghost predicate FreshRun(total: real, ops: seq<Op>) {
    forall i :: 0 <= i < |ops| ==> Fresh(Run(total, ops[..i]), ops[i])
  }

  ghost predicate SamePlaces(m: map<string, Member>, n: map<string, Member>) {
    m.Keys == n.Keys && forall name :: name in m ==> m[name].department == n[name].department
  }

  lemma SamePlacesKeepPlaced(m: map<string, Member>, n: map<string, Member>, departments: Lists)
    requires Placed(m, departments) && SamePlaces(m, n)
    ensures Placed(n, departments)
  {
    forall d, name | d in departments ensures Times(departments[d], name) == Due(n, d, name) {
      assert Times(departments[d], name) == Due(m, d, name);
    }
  }

  lemma StepKeepsPlaces(o: Org, op: Op)
    requires Placed(o.members, o.departments) && Fresh(o, op)
    ensures var n := Step(o, op); Placed(n.members, n.departments)
  {
    var n := Step(o, op);
    match op
    case CreateDept(d) =>
      forall c, x | c in n.departments ensures Times(n.departments[c], x) == Due(n.members, c, x) {
        if c != d {
          assert Times(o.departments[c], x) == Due(o.members, c, x);
        }
      }
    case HireMember(name, role, d) => HireKeepsPlacesIff(o, name, role, d);
    case AssignMember(name, d) => AssignKeepsPlaces(o, name, d);
    case DelegateTask(_, role, _) =>
      FirstActiveFits(o, role, 0);
      SamePlacesKeepPlaced(o.members, n.members, o.departments);
    case PromoteMember(_, _) => SamePlacesKeepPlaced(o.members, n.members, o.departments);
    case SuspendMember(_) => SamePlacesKeepPlaced(o.members, n.members, o.departments);
    case TerminateMember(_) => SamePlacesKeepPlaced(o.members, n.members, o.departments);
    case SpendAmount(_) =>
  }

  /**
   In every run with fresh names, each member is listed exactly once in its own department, if that exists, and
   in no other.
   */
  lemma {:induction false} EverybodyInOnePlace(total: real, ops: seq<Op>)
    requires FreshRun(total, ops)
    ensures Placed(Run(total, ops).members, Run(total, ops).departments)
  {
    if ops != [] {
      var front := ops[..|ops| - 1];
      forall i | 0 <= i < |front| ensures Fresh(Run(total, front[..i]), front[i]) {
        assert front[..i] == ops[..i];
        assert Fresh(Run(total, ops[..i]), ops[i]);
      }
      EverybodyInOnePlace(total, front);
      assert Fresh(Run(total, ops[..|ops| - 1]), ops[|ops| - 1]);
      StepKeepsPlaces(Run(total, front), ops[|ops| - 1]);
    }
  }

  // ---------------------------------------------------------------- tallies

  /** Tasks submitted that were neither completed nor failed. */
  function Outstanding(m: Member): int {
    m.submitted - m.completed - m.failed
  }

  /** The step gives the member a task, which ends this way. */
  predicate EndsFor(o: Org, op: Op, name: string, ending: Ending) {
    op.DelegateTask? && op.ending == ending && FirstActive(o, op.role, 0) == Some(name)
  }

  predicate Hires(op: Op, name: string) {
    op.HireMember? && op.name == name
  }

  /** How many of the tasks given to the member since it was last hired ended this way. */
  function EndedFor(total: real, ops: seq<Op>, name: string, ending: Ending): nat {
    if ops == [] then 0
    else
      var front, op := ops[..|ops| - 1], ops[|ops| - 1];
      if Hires(op, name) then 0
      else EndedFor(total, front, name, ending) + if EndsFor(Run(total, front), op, name, ending) then 1 else 0
  }

  /** How many tasks of the member, since it was last hired, the trail reports as completed, or as failed. */
  function AuditedFor(audit: seq<Audit>, name: string, completed: bool): nat {
    if audit == [] then 0
    else
      var front, e := audit[..|audit| - 1], audit[|audit| - 1];
      if e.Hire? && e.member == name then 0
      else AuditedFor(front, name, completed)
           + if e.Delegate? && e.member == name && e.completed == completed then 1 else 0
  }

  /** The order lists each member once. */
  ghost predicate Listed(o: Org) {
    && (forall name :: name in o.names <==> name in o.members)
    && (forall i, j :: 0 <= i < j < |o.names| ==> o.names[i] != o.names[j])
  }

  function SpentAccordingTo(audit: seq<Audit>): real {
    if audit == [] then 0.0
    else
      var e := audit[|audit| - 1];
      SpentAccordingTo(audit[..|audit| - 1]) + if e.Spend? then e.amount else 0.0
  }

  ghost predicate BooksBalance(o: Org) {
    && o.spent == SpentAccordingTo(o.audit)
    && 0.0 <= o.spent && (o.total >= 0.0 ==> o.spent <= o.total) && (o.total < 0.0 ==> o.spent == 0.0)
  }

  /** What one step adds to the tallies of a member. */
  lemma StepTallies(o: Org, op: Op, name: string)
    requires name in Step(o, op).members
    ensures Hires(op, name) || name in o.members
    ensures var n := Step(o, op).members[name];
            if Hires(op, name) then n.submitted == n.completed == n.failed == 0
            else
              var m := o.members[name];
              && n.completed == m.completed + (if EndsFor(o, op, name, Completes) then 1 else 0)
              && n.failed == m.failed + (if EndsFor(o, op, name, ReportsFailure) then 1 else 0)
              && Outstanding(n) == Outstanding(m) + (if EndsFor(o, op, name, Raises) then 1 else 0)
  {
    if op.DelegateTask? {
      FirstActiveFits(o, op.role, 0);
    }
  }

  /** In every run the tallies of a member count how the tasks given to it since its last hire ended. */
  lemma {:induction false} TalliesCountEndings(total: real, ops: seq<Op>, name: string)
    requires name in Run(total, ops).members
    ensures var m := Run(total, ops).members[name];
            && m.completed == EndedFor(total, ops, name, Completes)
            && m.failed == EndedFor(total, ops, name, ReportsFailure)
            && m.submitted == m.completed + m.failed + EndedFor(total, ops, name, Raises)
  {
    if ops != [] {
      var front, op := ops[..|ops| - 1], ops[|ops| - 1];
      StepTallies(Run(total, front), op, name);
      if !Hires(op, name) {
        TalliesCountEndings(total, front, name);
      }
    }
  }

  lemma StepAudited(o: Org, op: Op, name: string, completed: bool)
    ensures AuditedFor(Step(o, op).audit, name, completed) ==
            if Hires(op, name) then 0
            else AuditedFor(o.audit, name, completed)
                 + if EndsFor(o, op, name, if completed then Completes else ReportsFailure) then 1 else 0
  {
    var n := Step(o, op);
    if op.DelegateTask? {
      FirstActiveFits(o, op.role, 0);
    }
    if |n.audit| > |o.audit| {
      assert n.audit[..|o.audit|] == o.audit;
    }
  }

  /** And the trail reports the same endings, except for the tasks that raised. */
  lemma {:induction false} TrailCountsEndings(total: real, ops: seq<Op>, name: string, completed: bool)
    ensures AuditedFor(Run(total, ops).audit, name, completed) ==
            EndedFor(total, ops, name, if completed then Completes else ReportsFailure)
  {
    if ops == [] {
      assert AuditedFor([], name, completed) == 0;
      assert [CreateOrganization(total)][..0] == [];
    } else {
      TrailCountsEndings(total, ops[..|ops| - 1], name, completed);
      StepAudited(Run(total, ops[..|ops| - 1]), ops[|ops| - 1], name, completed);
    }
  }

  /** Move `i` delegates to the member a task that raises, and the member is not hired again afterwards. */
  ghost predicate Lost(total: real, ops: seq<Op>, name: string, i: nat) {
    && i < |ops| && EndsFor(Run(total, ops[..i]), ops[i], name, Raises)
    && forall j {:trigger Hires(ops[j], name)} :: i < j < |ops| ==> !Hires(ops[j], name)
  }

  lemma {:induction false} NoneRaisedIff(total: real, ops: seq<Op>, name: string)
    ensures EndedFor(total, ops, name, Raises) == 0 <==> forall i: nat :: !Lost(total, ops, name, i)
  {
    if ops != [] {
      var n := |ops| - 1;
      var front := ops[..n];
      NoneRaisedIff(total, front, name);
      LostNext(total, ops, name);
    }
  }

  lemma LostNext(total: real, ops: seq<Op>, name: string)
    requires ops != []
    ensures var n := |ops| - 1;
            && (Lost(total, ops, name, n) <==> EndsFor(Run(total, ops[..n]), ops[n], name, Raises))
            && forall i: nat :: i != n ==>
                 (Lost(total, ops, name, i) <==> Lost(total, ops[..n], name, i) && !Hires(ops[n], name))
  {
    var n := |ops| - 1;
    var front := ops[..n];
    forall i: nat | i != n
      ensures Lost(total, ops, name, i) <==> Lost(total, front, name, i) && !Hires(ops[n], name)
    {
      if i < n {
        assert front[..i] == ops[..i];
        assert forall j :: i < j < n ==> Hires(front[j], name) == Hires(ops[j], name);
      }
    }
  }

  lemma StepKeepsListed(o: Org, op: Op)
    requires Listed(o)
    ensures Listed(Step(o, op))
  {
    var n := Step(o, op);
    if op.DelegateTask? {
      FirstActiveFits(o, op.role, 0);
    }
    if op.HireMember? && op.name !in o.members {
      assert forall name :: name in n.names <==> name in o.names || name == op.name;
    }
  }

  lemma StepKeepsBooks(o: Org, op: Op)
    requires BooksBalance(o)
    ensures BooksBalance(Step(o, op)) && Step(o, op).total == o.total
  {
    var n := Step(o, op);
    if |n.audit| > |o.audit| {
      assert n.audit[..|o.audit|] == o.audit;
    }
  }

  /** In every run: each member is listed once, and the money spent is that audited, within a non-negative total. */
  lemma {:induction false} BooksAlwaysBalance(total: real, ops: seq<Op>)
    ensures Listed(Run(total, ops)) && BooksBalance(Run(total, ops)) && Run(total, ops).total == total
  {
    if ops == [] {
      assert SpentAccordingTo([]) == 0.0;
      assert SpentAccordingTo([CreateOrganization(total)]) == 0.0;
    } else {
      var o, op := Run(total, ops[..|ops| - 1]), ops[|ops| - 1];
      BooksAlwaysBalance(total, ops[..|ops| - 1]);
      StepKeepsListed(o, op);
      StepKeepsBooks(o, op);
    }
  }

  /** The tasks submitted to, completed by and failed by the first `n` members. */
  function Tally(o: Org, n: nat): (nat, nat, nat)
    requires n <= |o.names|
  {
    if n == 0 then (0, 0, 0)
    else
      var (s, c, f) := Tally(o, n - 1);
      if o.names[n - 1] in o.members then
        var m := o.members[o.names[n - 1]];
        (s + m.submitted, c + m.completed, f + m.failed)
      else (s, c, f)
  }

  lemma {:induction false} TallyBalances(o: Org, n: nat)
    requires n <= |o.names| && forall name :: name in o.members ==> Outstanding(o.members[name]) >= 0
    ensures var (s, c, f) := Tally(o, n);
            && s >= c + f
            && (s == c + f <==>
                forall i :: 0 <= i < n && o.names[i] in o.members ==> Outstanding(o.members[o.names[i]]) == 0)
  {
    if n > 0 {
      TallyBalances(o, n - 1);
      if o.names[n - 1] in o.members {
        assert Outstanding(o.members[o.names[n - 1]]) >= 0;
      }
    }
  }

  /**
   The tallies of the whole organization balance exactly if no task delegated to a member since it was hired ended
   with an exception; otherwise more are submitted than completed and failed.
   */
  lemma TalliesBalanceIff(total: real, ops: seq<Op>)
    ensures var o := Run(total, ops); var (s, c, f) := Tally(o, |o.names|);
            && s >= c + f
            && (s == c + f <==> forall name, i: nat :: name in o.members ==> !Lost(total, ops, name, i))
  {
    var o := Run(total, ops);
    forall name | name in o.members
      ensures Outstanding(o.members[name]) >= 0
      ensures Outstanding(o.members[name]) == 0 <==> forall i: nat :: !Lost(total, ops, name, i)
    {
      TalliesCountEndings(total, ops, name);
      NoneRaisedIff(total, ops, name);
    }
    BooksAlwaysBalance(total, ops);
    TallyBalances(o, |o.names|);
  }

  /** One such run: the task is submitted, and neither tallied nor audited. */
  lemma RaisingCallIsLost(total: real, manager: string, name: string, role: Role, d: DepartmentId)
    ensures var ops := [HireMember(name, role, d), DelegateTask(manager, role, Raises)];
            && Run(total, ops).members == map[name := Member(role, d, ACTIVE, 1, 0, 0)]
            && Run(total, ops).audit == [CreateOrganization(total), Hire(name, role, d)]
            && Lost(total, ops, name, 1)
  {
    var ops := [HireMember(name, role, d), DelegateTask(manager, role, Raises)];
    assert ops[..1] == [HireMember(name, role, d)];
    assert ops[..1][..0] == [];
    var o := Run(total, ops[..1]);
    assert o == Hired(Run(total, []), name, role, d);
    assert o.names == [name] && FirstActive(o, role, 0) == Some(name);
  }

  // ---------------------------------------------------------------- standing of the members

  datatype Standing = Standing(role: Role, department: DepartmentId, status: MemberStatus)

  function StandingIn(members: map<string, Member>, name: string): Option<Standing> {
    if name in members then Some(Standing(members[name].role, members[name].department, members[name].status)) else None
  }

  /** The department was created by some operation. */
  ghost predicate Created(ops: seq<Op>, d: DepartmentId) {
    CreateDept(d) in ops
  }

  /** What an operation makes of a standing; `known` says whether the department of a move exists. */
  function Moved(before: Option<Standing>, op: Op, name: string, known: bool): Option<Standing> {
    match op
    case HireMember(n, role, d) => if n == name then Some(Standing(role, d, ACTIVE)) else before
    case AssignMember(n, d) =>
      if n == name && before.Some? && known then Some(before.value.(department := d)) else before
    case PromoteMember(n, role) => if n == name && before.Some? then Some(before.value.(role := role)) else before
    case SuspendMember(n) => if n == name && before.Some? then Some(before.value.(status := SUSPENDED)) else before
    case TerminateMember(n) => if n == name && before.Some? then Some(before.value.(status := TERMINATED)) else before
    case _ => before
  }

  /** What the operations so far, taken alone, say about a name. */
  ghost function ToldByOps(ops: seq<Op>, name: string): Option<Standing> {
    if ops == [] then None
    else
      var front, op := ops[..|ops| - 1], ops[|ops| - 1];
      Moved(ToldByOps(front, name), op, name, op.AssignMember? && Created(front, op.department))
  }

  /** What an entry of the audit trail says about a standing. */
  function Noted(before: Option<Standing>, e: Audit, name: string): Option<Standing> {
    match e
    case Hire(n, role, d) => if n == name then Some(Standing(role, d, ACTIVE)) else before
    case Assign(n, d) => if n == name && before.Some? then Some(before.value.(department := d)) else before
    case Promote(n, role) => if n == name && before.Some? then Some(before.value.(role := role)) else before
    case Suspend(n) => if n == name && before.Some? then Some(before.value.(status := SUSPENDED)) else before
    case Terminate(n) => if n == name && before.Some? then Some(before.value.(status := TERMINATED)) else before
    case _ => before
  }

  /** What the audit trail says about a name. */
  function ToldByTrail(audit: seq<Audit>, name: string): Option<Standing> {
    if audit == [] then None else Noted(ToldByTrail(audit[..|audit| - 1], name), audit[|audit| - 1], name)
  }

  lemma TrailGrows(audit: seq<Audit>, e: Audit, name: string)
    ensures ToldByTrail(audit + [e], name) == Noted(ToldByTrail(audit, name), e, name)
  {
    assert (audit + [e])[..|audit|] == audit;
  }

  /** The names hired, each where it was hired first. */
  function HiredInOrder(ops: seq<Op>): seq<string> {
    if ops == [] then []
    else
      var before, op := HiredInOrder(ops[..|ops| - 1]), ops[|ops| - 1];
      if op.HireMember? && op.name !in before then before + [op.name] else before
  }

  lemma StepMoves(o: Org, op: Op, name: string)
    ensures StandingIn(Step(o, op).members, name) ==
            Moved(StandingIn(o.members, name), op, name, op.AssignMember? && op.department in o.departments)
  {
    if op.DelegateTask? {
      FirstActiveFits(o, op.role, 0);
    }
  }

  /** The entry that a step appends, if any. */
  ghost function EntryOf(o: Org, op: Op): Option<Audit> {
    var audit := Step(o, op).audit;
    if |audit| == |o.audit| + 1 then Some(audit[|o.audit|]) else None
  }

  lemma StepAppends(o: Org, op: Op)
    ensures Step(o, op).audit == o.audit + if EntryOf(o, op).Some? then [EntryOf(o, op).value] else []
  {
    if op.DelegateTask? {
      FirstActiveFits(o, op.role, 0);
    }
  }

  /** The entry of a step says what the step does to a standing. */
  lemma EntryIsTrue(o: Org, op: Op, name: string)
    ensures var before, known := StandingIn(o.members, name), op.AssignMember? && op.department in o.departments;
            Moved(before, op, name, known) ==
            if EntryOf(o, op).Some? then Noted(before, EntryOf(o, op).value, name) else before
  {
    if op.DelegateTask? {
      FirstActiveFits(o, op.role, 0);
    }
  }

  /** In every run the trail tells role, department and status of each member, and of nobody else. */
  lemma {:induction false} TrailTellsStanding(total: real, ops: seq<Op>, name: string)
    ensures ToldByTrail(Run(total, ops).audit, name) == StandingIn(Run(total, ops).members, name)
  {
    if ops == [] {
      assert [CreateOrganization(total)][..0] == [];
      assert ToldByTrail([], name) == None;
    } else {
      TrailTellsStanding(total, ops[..|ops| - 1], name);
      var o, op := Run(total, ops[..|ops| - 1]), ops[|ops| - 1];
      StepMoves(o, op, name);
      EntryIsTrue(o, op, name);
      StepAppends(o, op);
      if EntryOf(o, op).Some? {
        TrailGrows(o.audit, EntryOf(o, op).value, name);
      } else {
        assert o.audit + [] == o.audit;
      }
    }
  }

  /** The departments are those created, and those that the trail says were created. */
  lemma {:induction false} DepartmentsAreCreated(total: real, ops: seq<Op>, d: DepartmentId)
    ensures d in Run(total, ops).departments <==> Created(ops, d)
    ensures CreateDepartment(d) in Run(total, ops).audit <==> Created(ops, d)
  {
    if ops != [] {
      var front, op := ops[..|ops| - 1], ops[|ops| - 1];
      DepartmentsAreCreated(total, front, d);
      assert Created(ops, d) <==> Created(front, d) || op == CreateDept(d);
      StepCreates(Run(total, front), op, d);
    }
  }

  lemma StepCreates(o: Org, op: Op, d: DepartmentId)
    ensures d in Step(o, op).departments <==> d in o.departments || op == CreateDept(d)
    ensures CreateDepartment(d) in Step(o, op).audit <==> CreateDepartment(d) in o.audit || op == CreateDept(d)
  {
    if op.DelegateTask? {
      FirstActiveFits(o, op.role, 0);
    }
  }

  /** And so do the operations on its name: hired, moved, promoted, suspended or terminated last. */
  lemma {:induction false} OpsTellStanding(total: real, ops: seq<Op>, name: string)
    ensures ToldByOps(ops, name) == StandingIn(Run(total, ops).members, name)
  {
    if ops != [] {
      var front, op := ops[..|ops| - 1], ops[|ops| - 1];
      OpsTellStanding(total, front, name);
      StepMoves(Run(total, front), op, name);
      if op.AssignMember? {
        DepartmentsAreCreated(total, front, op.department);
      }
    }
  }

  /** The order in which members are looked through is that of their first hires. */
  lemma {:induction false} NamesAreHiredInOrder(total: real, ops: seq<Op>)
    ensures Run(total, ops).names == HiredInOrder(ops)
  {
    if ops != [] {
      var front := ops[..|ops| - 1];
      NamesAreHiredInOrder(total, front);
      BooksAlwaysBalance(total, front);
      StepNames(Run(total, front), ops[|ops| - 1]);
    }
  }

  lemma StepNames(o: Org, op: Op)
    requires Listed(o)
    ensures Step(o, op).names == if op.HireMember? && op.name !in o.names then o.names + [op.name] else o.names
  {
    if op.DelegateTask? {
      FirstActiveFits(o, op.role, 0);
    }
  }

  /** A task goes to the first member hired who, by the operations so far, is active in the role. */
  lemma ChosenIsFirstActive(total: real, ops: seq<Op>, role: Role)
    ensures var names := HiredInOrder(ops);
            match FirstActive(Run(total, ops), role, 0)
            case Some(name) =>
              exists i :: 0 <= i < |names| && names[i] == name && ActiveAs(ops, name, role)
                          && forall j :: 0 <= j < i ==> !ActiveAs(ops, names[j], role)
            case None => forall j :: 0 <= j < |names| ==> !ActiveAs(ops, names[j], role)
  {
    var o := Run(total, ops);
    NamesAreHiredInOrder(total, ops);
    FirstActiveFits(o, role, 0);
    forall name ensures Fits(o, name, role) <==> ActiveAs(ops, name, role) {
      OpsTellStanding(total, ops, name);
    }
  }

  ghost predicate ActiveAs(ops: seq<Op>, name: string, role: Role) {
    var told := ToldByOps(ops, name);
    told.Some? && told.value.role == role && told.value.status == ACTIVE
  }

  /** A spend goes through exactly if it is not negative and the audited spends, with it, stay within the total. */
  lemma SpendsIff(total: real, ops: seq<Op>, amount: real)
    ensures var before, after := Run(total, ops), Run(total, ops + [SpendAmount(amount)]);
            if amount >= 0.0 && SpentAccordingTo(before.audit) + amount <= total
            then after == before.(spent := before.spent + amount, audit := before.audit + [Spend(amount)])
            else after == before
  {
    assert (ops + [SpendAmount(amount)])[..|ops|] == ops;
    BooksAlwaysBalance(total, ops);
  }

  // ---------------------------------------------------------------- the organization itself

  class Budget {
    const total: real
    var spent: real

    constructor (total: real)
      ensures this.total == total && spent == 0.0
    {
      this.total, spent := total, 0.0;
    }

    function Remaining(): real
      reads this
    {
      total - spent
    }

    method Spend(amount: real) returns (ok: bool)
      modifies this
      ensures ok == (0.0 <= amount <= old(Remaining()))
      ensures spent == if ok then old(spent) + amount else old(spent)
    {
      if amount < 0.0 || amount > Remaining() {
        return false;
      }
      spent := spent + amount;
      return true;
    }
  }

  class Organization {
    const budget: Budget
    var names: seq<string>
    var members: map<string, Member>
    var departments: Lists
    var audit: seq<Audit>

    function State(): Org
      reads this, budget
    {
      Org(names, members, departments, budget.total, budget.spent, audit)
    }

    constructor (total: real)
      ensures State() == Run(total, []) && fresh(budget)
    {
      names, members, departments, audit := [], map[], map[], [Audit.CreateOrganization(total)];
      budget := new Budget(total);
    }

    /** `id` is a fresh identifier. */
    method CreateDepartment(id: DepartmentId)
      modifies this
      ensures State() == Step(old(State()), CreateDept(id))
    {
      departments := departments[id := []];
      audit := audit + [Audit.CreateDepartment(id)];
    }

    /** `name` is the name given, or a fresh one. */
    method Hire(role: Role, department: DepartmentId, name: string)
      modifies this
      ensures State() == Step(old(State()), HireMember(name, role, department))
    {
      if name !in members {
        names := names + [name];
      }
      members := members[name := Member(role, department, ACTIVE, 0, 0, 0)];
      if department in departments {
        departments := departments[department := departments[department] + [name]];
      }
      audit := audit + [Audit.Hire(name, role, department)];
    }

    method Assign(name: string, department: DepartmentId) returns (ok: bool)
      modifies this
      ensures State() == Step(old(State()), AssignMember(name, department))
      ensures ok == (name in old(members) && department in old(departments))
    {
      if name !in members || department !in departments {
        return false;
      }
      var from := members[name].department;
      if from in departments && name in departments[from] {
        departments := departments[from := Without(departments[from], name)];
      } else if from in departments {
        WithoutNothing(departments[from], name);
        assert departments[from := departments[from]] == departments;
      }
      members := members[name := members[name].(department := department)];
      departments := departments[department := departments[department] + [name]];
      audit := audit + [Audit.Assign(name, department)];
      return true;
    }

    /** An exception of the member's agent leaves the method after the task was counted as submitted. */
    method Delegate(manager: string, role: Role, ending: Ending) returns (member: Option<string>, raised: bool)
      modifies this
      ensures State() == Step(old(State()), DelegateTask(manager, role, ending))
      ensures member == FirstActive(old(State()), role, 0) && raised == (member.Some? && ending == Raises)
    {
      ghost var o := State();
      var i := 0;
      while i < |names|
        invariant 0 <= i <= |names|
        invariant FirstActive(o, role, 0) == FirstActive(o, role, i)
      {
        var name := names[i];
        if name in members && members[name].role == role && members[name].status == ACTIVE {
          Submit(manager, name, ending);
          return Some(name), ending == Raises;
        }
        i := i + 1;
      }
      return None, false;
    }

    /** The rest of `delegate`, for the member chosen. */
    method Submit(manager: string, name: string, ending: Ending)
      requires name in members
      modifies this
      ensures State() == Delegated(old(State()), manager, name, ending)
    {
      var m := members[name];
      m := m.(submitted := m.submitted + 1);
      members := members[name := m];
      if ending == Raises {
        return;
      }
      if ending == Completes {
        m := m.(completed := m.completed + 1);
      } else {
        m := m.(failed := m.failed + 1);
      }
      members := members[name := m];
      audit := audit + [Audit.Delegate(manager, name, ending == Completes)];
    }

    method Promote(name: string, role: Role) returns (ok: bool)
      modifies this
      ensures State() == Step(old(State()), PromoteMember(name, role)) && ok == (name in old(members))
    {
      if name !in members {
        return false;
      }
      members := members[name := members[name].(role := role)];
      audit := audit + [Audit.Promote(name, role)];
      return true;
    }

    method Suspend(name: string) returns (ok: bool)
      modifies this
      ensures State() == Step(old(State()), SuspendMember(name)) && ok == (name in old(members))
    {
      if name !in members {
        return false;
      }
      members := members[name := members[name].(status := SUSPENDED)];
      audit := audit + [Audit.Suspend(name)];
      return true;
    }

    method Terminate(name: string) returns (ok: bool)
      modifies this
      ensures State() == Step(old(State()), TerminateMember(name)) && ok == (name in old(members))
    {
      if name !in members {
        return false;
      }
      members := members[name := members[name].(status := TERMINATED)];
      audit := audit + [Audit.Terminate(name)];
      return true;
    }

    method Spend(amount: real) returns (ok: bool)
      modifies this, budget
      ensures State() == Step(old(State()), SpendAmount(amount)) && ok == Affordable(old(State()), amount)
    {
      ok := budget.Spend(amount);
      if ok {
        audit := audit + [Audit.Spend(amount)];
      }
    }

    /** The three sums over all members. */
    method Tallies() returns (submitted: nat, completed: nat, failed: nat)
      requires Listed(State())
      ensures (submitted, completed, failed) == Tally(State(), |names|)
    {
      submitted, completed, failed := 0, 0, 0;
      for i := 0 to |names|
        invariant (submitted, completed, failed) == Tally(State(), i)
      {
        assert names[i] in names;
        var m := members[names[i]];
        submitted, completed, failed := submitted + m.submitted, completed + m.completed, failed + m.failed;
      }
    }

    method Report() returns (r: OrgReport)
      requires Listed(State())
      ensures (r.submitted, r.completed, r.failed) == Tally(State(), |names|)
      ensures IsRate(r.successRate, r.completed, r.submitted)
      ensures r.memberCount == |members| && r.departmentCount == |departments| && r.auditEntries == |audit|
      ensures r.budgetTotal == budget.total && r.budgetSpent == budget.spent
      ensures r.budgetRemaining == r.budgetTotal - r.budgetSpent
    {
      var submitted, completed, failed := Tallies();
      var rate := SuccessRate(completed, submitted);
      r := OrgReport(|members|, |departments|, budget.total, budget.spent, budget.Remaining(),
                     submitted, completed, failed, rate, |audit|);
    }
  }

  /** The share of the submitted tasks that were completed, and 0 for no tasks. */
  ghost predicate IsRate(rate: real, completed: nat, submitted: nat) {
    if submitted == 0 then rate == 0.0 else rate * submitted as real == completed as real
  }

  function SuccessRate(completed: nat, submitted: nat): (rate: real)
    ensures IsRate(rate, completed, submitted)
  {
    if submitted == 0 then 0.0 else completed as real / submitted as real
  }

  datatype OrgReport = OrgReport(
    memberCount: nat, departmentCount: nat, budgetTotal: real, budgetSpent: real, budgetRemaining: real,
    submitted: nat, completed: nat, failed: nat, successRate: real, auditEntries: nat)

  lemma {:induction false} WithoutNothing(s: seq<string>, name: string)
    requires name !in s
    ensures Without(s, name) == s
  {
    if s != [] {
      WithoutNothing(s[1..], name);
    }
  }
}
