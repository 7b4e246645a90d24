/**
 * The employee handlers of the backend. Queries return nothing when the caller is signed out;
 * mutations throw "Not authenticated" then, and "Employee not found" when the employee does not
 * exist or belongs to someone else, before writing anything.
 */
module Employees {
  import opened Wrappers
  import opened IdLists
  import opened Store

  const NotAuthenticated := "Not authenticated"
  const EmployeeNotFound := "Employee not found"

  /** `getEmployees`: nothing when signed out, else the caller's employees in creation order. */
  function GetEmployees(db: Database, caller: Option<Id>): (r: seq<Id>)
    reads db
    requires db.Valid()
    ensures caller.None? ==> r == []
    ensures caller.Some? ==>
      && (forall i :: 0 <= i < |r| ==> r[i] in db.employees && db.employees[r[i]].userId == caller.value)
      && (forall k :: k in db.employees && db.employees[k].userId == caller.value ==> k in r)
      && (forall i, j :: 0 <= i < j < |r| ==> r[i] < r[j])
  {
    if caller.None? then []
    else
      SelectSpec(db.employees, EmployeeOwnedBy(caller.value), db.nextId);
      db.EmployeesOf(caller.value)
  }

  /**
   * `getEmployeesByIds`: nothing when signed out, else the records of the requested ids that
   * exist and belong to the caller, in the order requested; another user's employee is never
   * returned.
   */
  function GetEmployeesByIds(db: Database, caller: Option<Id>, ids: seq<Id>): (r: seq<Employee>)
    reads db
    ensures caller.None? ==> r == []
    ensures |r| <= |ids|
    ensures caller.Some? ==> forall i :: 0 <= i < |r| ==> r[i] in db.employees.Values && r[i].userId == caller.value
    ensures caller.Some? && (forall i :: 0 <= i < |ids| ==> ids[i] in db.employees && db.employees[ids[i]].userId == caller.value) ==>
      |r| == |ids| && forall i :: 0 <= i < |ids| ==> r[i] == db.employees[ids[i]]
  {
    if caller.None? then []
    else
      var mine := OwnedBy(db.employees, caller.value);
      var r := Resolve(ids, mine);
      assert forall e :: e in mine.Values ==> e in db.employees.Values && e.userId == caller.value by {
        forall e | e in mine.Values ensures e in db.employees.Values && e.userId == caller.value {
          var k :| k in mine && mine[k] == e;
        }
      }
      r
  }

  /** `createEmployee`: a new employee of the caller with the supplied fields. */
  method CreateEmployee(db: Database, caller: Option<Id>, fields: EmployeeFields) returns (r: Result<Id>)
    requires db.Valid()
    modifies db
    ensures db.Valid()
    ensures db.users == old(db.users)
    ensures db.nextId == old(db.nextId) + (if r.Success? then 1 else 0)
    ensures r.Failure? <==> caller.None?
    ensures r.Failure? ==> r.error == NotAuthenticated && unchanged(db)
    ensures r.Success? ==>
      && r.value == old(db.nextId) && r.value !in old(db.employees)
      && db.employees == old(db.employees)[r.value := Employee(caller.value, fields)]
      && db.EmployeesOf(caller.value) == old(db.EmployeesOf(caller.value)) + [r.value]
      && db.scenarios == old(db.scenarios) && db.scrapes == old(db.scrapes) && db.links == old(db.links)
  {
    if caller.None? {
      return Failure(NotAuthenticated);
    }
    var record := Employee(caller.value, fields);
    SelectInsert(db.employees, EmployeeOwnedBy(caller.value), db.nextId, record);
    var id := db.InsertEmployee(record);
    r := Success(id);
  }

  /** `{ ...fields, ...updates }` over the optional fields: what is supplied replaces, the rest stays. */
  function Patch(fields: EmployeeFields, updates: EmployeeFields): (r: EmployeeFields)
  {
    EmployeeFields(
      if updates.firstName.Some? then updates.firstName else fields.firstName,
      if updates.lastName.Some? then updates.lastName else fields.lastName,
      if updates.pictureUrl.Some? then updates.pictureUrl else fields.pictureUrl,
      if updates.position.Some? then updates.position else fields.position,
      if updates.salary.Some? then updates.salary else fields.salary,
      if updates.startMonth.Some? then updates.startMonth else fields.startMonth,
      if updates.startYear.Some? then updates.startYear else fields.startYear,
      if updates.linkedinUrl.Some? then updates.linkedinUrl else fields.linkedinUrl)
  }

  /** A patch that supplies nothing changes nothing; a patch of every field replaces them all. */
  lemma PatchIdentity(fields: EmployeeFields, updates: EmployeeFields)
    ensures Patch(fields, NoFields) == fields
    ensures Patch(NoFields, updates) == updates
  {
  }

  /** Applying the same patch twice is applying it once. */
  lemma PatchIdempotent(fields: EmployeeFields, updates: EmployeeFields)
    ensures Patch(Patch(fields, updates), updates) == Patch(fields, updates)
  {
  }

  /** Two patches in a row are one patch with the later one's supplied fields winning. */
  lemma PatchCompose(fields: EmployeeFields, first: EmployeeFields, second: EmployeeFields)
    ensures Patch(Patch(fields, first), second) == Patch(fields, Patch(first, second))
  {
  }

  /** `updateEmployee`: writes the supplied fields of the caller's employee; its owner stays. */
  method UpdateEmployee(db: Database, caller: Option<Id>, id: Id, updates: EmployeeFields) returns (r: Result<Id>)
    requires db.Valid()
    modifies db
    ensures db.Valid()
    ensures db.users == old(db.users) && db.nextId == old(db.nextId)
    ensures r.Failure? ==> unchanged(db)
    ensures r.Failure? <==> caller.None? || id !in old(db.employees) || old(db.employees)[id].userId != caller.value
    ensures r.Failure? ==> r.error == if caller.None? then NotAuthenticated else EmployeeNotFound
    ensures r.Success? ==>
      && r.value == id
      && db.employees == old(db.employees)[id := Employee(caller.value, Patch(old(db.employees)[id].fields, updates))]
      && db.EmployeesOf(caller.value) == old(db.EmployeesOf(caller.value))
      && db.scenarios == old(db.scenarios) && db.scrapes == old(db.scrapes) && db.links == old(db.links)
  {
    if caller.None? {
      return Failure(NotAuthenticated);
    }
    var user := caller.value;
    if id !in db.employees || db.employees[id].userId != user {
      return Failure(EmployeeNotFound);
    }
    var patched := Employee(user, Patch(db.employees[id].fields, updates));
    SelectPatch(db.employees, EmployeeOwnedBy(user), db.nextId, id, patched);
    db.ReplaceEmployee(id, patched);
    r := Success(id);
  }

  /** A scenario with every occurrence of an employee removed and stamped, if it listed it. */
  function Unlist(s: Scenario, id: Id, now: int): Scenario {
    if id in s.employeeIds then s.(employeeIds := RemoveAll(s.employeeIds, {id}), updatedAt := now) else s
  }

  /** The scenarios after an employee of `user` is unlisted from each of that user's scenarios. */
  function UnlistFromAll(scenarios: map<Id, Scenario>, user: Id, id: Id, now: int): map<Id, Scenario> {
    map k | k in scenarios :: if scenarios[k].userId == user then Unlist(scenarios[k], id, now) else scenarios[k]
  }

  /**
   * After unlisting, no scenario of the user lists the employee; each keeps its owner, its name
   * and its other employees in their order; a scenario that did not list the employee, or that
   * belongs to another user, is untouched.
   */
  lemma UnlistFromAllSpec(scenarios: map<Id, Scenario>, user: Id, id: Id, now: int)
    ensures var r := UnlistFromAll(scenarios, user, id, now);
      && r.Keys == scenarios.Keys
      && (forall k :: k in r && r[k].userId == user ==> id !in r[k].employeeIds)
      && (forall k :: k in r ==> r[k].userId == scenarios[k].userId && r[k].name == scenarios[k].name)
      && (forall k :: k in r ==> r[k].employeeIds == RemoveAll(scenarios[k].employeeIds, if r[k].userId == user then {id} else {}))
      && (forall k :: k in r && (scenarios[k].userId != user || id !in scenarios[k].employeeIds) ==> r[k] == scenarios[k])
  {
    var r := UnlistFromAll(scenarios, user, id, now);
    forall k | k in r
      ensures r[k].userId == user ==> id !in r[k].employeeIds
      ensures r[k].employeeIds == RemoveAll(scenarios[k].employeeIds, if r[k].userId == user then {id} else {})
    {
      var ids := scenarios[k].employeeIds;
      RemoveAllKeeps(ids, {id});
      if r[k].userId != user || id !in ids {
        RemoveAllNothing(ids, if r[k].userId == user then {id} else {});
      }
    }
  }

  /** A map that unlists the employee exactly from the scenarios of the user is `UnlistFromAll`. */
  lemma UnlistedEverywhere(before: map<Id, Scenario>, after: map<Id, Scenario>, done: set<Id>, user: Id, id: Id, now: int)
    requires after.Keys == before.Keys
    requires forall k :: k in before ==> (k in done <==> before[k].userId == user)
    requires forall k :: k in before ==> after[k] == if k in done then Unlist(before[k], id, now) else before[k]
    ensures after == UnlistFromAll(before, user, id, now)
  {
  }

  /**
   * The loop of `deleteEmployee`: every scenario of the user that lists the employee is
   * rewritten without it and stamped, one by one in creation order.
   */
  method UnlistFromScenarios(db: Database, user: Id, id: Id, now: int)
    requires db.Valid()
    modifies db
    ensures db.Valid() && db.nextId == old(db.nextId)
    ensures db.scenarios == UnlistFromAll(old(db.scenarios), user, id, now)
    ensures db.employees == old(db.employees) && db.scrapes == old(db.scrapes) && db.links == old(db.links)
    ensures db.users == old(db.users)
  {
    var snapshot := db.scenarios;
    var scenarios := db.ScenariosOf(user);
    SelectSpec(snapshot, ScenarioOwnedBy(user), db.nextId);
    ghost var done: set<Id> := {};
    for i := 0 to |scenarios|
      invariant db.Valid() && db.nextId == old(db.nextId)
      invariant db.scenarios.Keys == snapshot.Keys
      invariant forall j :: 0 <= j < i ==> scenarios[j] in done
      invariant forall k :: k in done ==> k in snapshot && snapshot[k].userId == user
      invariant forall k :: k in snapshot ==>
        db.scenarios[k] == if k in done then Unlist(snapshot[k], id, now) else snapshot[k]
      invariant db.employees == old(db.employees) && db.scrapes == old(db.scrapes) && db.links == old(db.links)
      invariant db.users == old(db.users)
    {
      var scenarioId := scenarios[i];
      var scenario := snapshot[scenarioId];
      if id in scenario.employeeIds {
        db.ReplaceScenario(scenarioId, scenario.(employeeIds := RemoveAll(scenario.employeeIds, {id}), updatedAt := now));
      }
      done := done + {scenarioId};
    }
    UnlistedEverywhere(snapshot, db.scenarios, done, user, id, now);
  }

  /**
   * `deleteEmployee`: the caller's employee is unlisted from every scenario of the caller, then
   * deleted.
   */
  method DeleteEmployee(db: Database, caller: Option<Id>, now: int, id: Id) returns (r: Result<Id>)
    requires db.Valid()
    modifies db
    ensures db.Valid()
    ensures db.users == old(db.users) && db.nextId == old(db.nextId)
    ensures r.Failure? ==> unchanged(db)
    ensures r.Failure? <==> caller.None? || id !in old(db.employees) || old(db.employees)[id].userId != caller.value
    ensures r.Failure? ==> r.error == if caller.None? then NotAuthenticated else EmployeeNotFound
    ensures r.Success? ==>
      && r.value == id
      && db.employees == old(db.employees) - {id}
      && db.scenarios == UnlistFromAll(old(db.scenarios), caller.value, id, now)
      && db.scrapes == old(db.scrapes) && db.links == old(db.links)
  {
    if caller.None? {
      return Failure(NotAuthenticated);
    }
    var user := caller.value;
    if id !in db.employees || db.employees[id].userId != user {
      return Failure(EmployeeNotFound);
    }
    UnlistFromScenarios(db, user, id, now);
    db.DeleteEmployee(id);
    r := Success(id);
  }

  /**
   * `bulkCreateEmployees`: one new employee of the caller per input, in input order; the ids
   * returned are consecutive and fresh.
   */
  method BulkCreateEmployees(db: Database, caller: Option<Id>, employees: seq<EmployeeFields>) returns (r: Result<seq<Id>>)
    requires db.Valid()
    modifies db
    ensures db.Valid()
    ensures db.users == old(db.users)
    ensures r.Success? ==> db.nextId == old(db.nextId) + |r.value|
    ensures r.Failure? <==> caller.None?
    ensures r.Failure? ==> r.error == NotAuthenticated && unchanged(db)
    ensures r.Success? ==>
      && var ids := r.value;
      && |ids| == |employees| && (forall i :: 0 <= i < |ids| ==> ids[i] == old(db.nextId) + i)
      && (forall i :: 0 <= i < |ids| ==> ids[i] in db.employees && db.employees[ids[i]] == Employee(caller.value, employees[i]))
      && (forall k :: k in old(db.employees) ==> k in db.employees && db.employees[k] == old(db.employees)[k])
      && (forall k :: k in db.employees ==> k in old(db.employees) || old(db.nextId) <= k)
      && db.scenarios == old(db.scenarios) && db.scrapes == old(db.scrapes) && db.links == old(db.links)
  {
    if caller.None? {
      return Failure(NotAuthenticated);
    }
    var ids := db.InsertEmployees(caller.value, employees);
    r := Success(ids);
  }
}
