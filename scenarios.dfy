/**
 * The scenario handlers of the backend. Every handler first finds the caller (none when signed
 * out); mutations then check that the scenario exists and belongs to the caller, and throw
 * before writing anything otherwise, so a failed mutation leaves the database as it was. The
 * clock reading a mutation stamps on what it writes is the parameter `now`.
 */
module Scenarios {
  import opened Wrappers
  import opened Text
  import opened IdLists
  import opened Store

  const NotAuthenticated := "Not authenticated"
  const ScenarioNotFound := "Scenario not found"
  const EmployeeNotFound := "Employee not found"
  const LastScenario := "Cannot delete the last scenario"
  const TargetNotFound := "Target scenario not found"
  const SourceNotFound := "Source scenario not found"

  /**
   * The check a mutation starts with: the caller, when signed in and the owner of an existing
   * scenario `id`; otherwise the message it throws.
   */
  function Authorize(scenarios: map<Id, Scenario>, caller: Option<Id>, id: Id, notFound: string): (r: Result<Id>)
    ensures r.Success? <==> caller.Some? && id in scenarios && scenarios[id].userId == caller.value
    ensures r.Success? ==> r.value == caller.value
    ensures r.Failure? ==> r.error == if caller.None? then NotAuthenticated else notFound
  {
    if caller.None? then Failure(NotAuthenticated)
    else if id !in scenarios || scenarios[id].userId != caller.value then Failure(notFound)
    else Success(caller.value)
  }

  /** `getScenarios`: nothing when signed out, else the caller's scenarios in creation order. */
  function GetScenarios(db: Database, caller: Option<Id>): (r: seq<Id>)
    reads db
    requires db.Valid()
    ensures caller.None? ==> r == []
    ensures caller.Some? ==>
      && (forall i :: 0 <= i < |r| ==> r[i] in db.scenarios && db.scenarios[r[i]].userId == caller.value)
      && (forall k :: k in db.scenarios && db.scenarios[k].userId == caller.value ==> k in r)
      && (forall i, j :: 0 <= i < j < |r| ==> r[i] < r[j])
  {
    if caller.None? then []
    else
      SelectSpec(db.scenarios, ScenarioOwnedBy(caller.value), db.nextId);
      db.ScenariosOf(caller.value)
  }

  /** A scenario together with its employees. */
  datatype ScenarioWithEmployees = ScenarioWithEmployees(scenario: Scenario, employees: seq<Employee>)

  /**
   * `getScenarioWithEmployees`: nothing unless the caller owns the scenario; otherwise the
   * scenario with the records of its employee ids in list order, ids whose record is gone
   * dropped. The employees' owner is not checked.
   */
  function GetScenarioWithEmployees(db: Database, caller: Option<Id>, id: Id): (r: Option<ScenarioWithEmployees>)
    reads db
    ensures r.Some? <==> caller.Some? && id in db.scenarios && db.scenarios[id].userId == caller.value
    ensures r.Some? ==> r.value.scenario == db.scenarios[id]
    ensures r.Some? ==> |r.value.employees| <= |db.scenarios[id].employeeIds|
    ensures r.Some? ==> forall i :: 0 <= i < |r.value.employees| ==> r.value.employees[i] in db.employees.Values
    ensures r.Some? ==> var ids := db.scenarios[id].employeeIds;
      (forall i :: 0 <= i < |ids| ==> ids[i] in db.employees) ==>
        |r.value.employees| == |ids| && forall i :: 0 <= i < |ids| ==> r.value.employees[i] == db.employees[ids[i]]
  {
    if caller.None? || id !in db.scenarios || db.scenarios[id].userId != caller.value then None
    else
      var scenario := db.scenarios[id];
      Some(ScenarioWithEmployees(scenario, Resolve(scenario.employeeIds, db.employees)))
  }

  /**
   * `createScenario`: a new scenario of the caller with the given name and ids (none by default),
   * `isDefault` false unless given, created and updated now; it is listed after the caller's
   * other scenarios.
   */
  method CreateScenario(db: Database, caller: Option<Id>, now: int, name: string,
                        employeeIds: Option<seq<Id>>, isDefault: Option<bool>) returns (r: Result<Id>)
    requires db.Valid()
    modifies db
    ensures db.Valid()
    ensures db.users == old(db.users)
    ensures db.nextId == old(db.nextId) + (if r.Success? then 1 else 0)
    ensures r.Failure? <==> caller.None?
    ensures r.Failure? ==> r.error == NotAuthenticated && unchanged(db)
    ensures r.Success? ==>
      && r.value == old(db.nextId) && r.value !in old(db.scenarios)
      && db.scenarios == old(db.scenarios)[r.value := Scenario(caller.value, name, employeeIds.GetOr([]),
           Some(isDefault.GetOr(false)), None, None, None, now, now)]
      && db.ScenariosOf(caller.value) == old(db.ScenariosOf(caller.value)) + [r.value]
      && db.employees == old(db.employees) && db.scrapes == old(db.scrapes) && db.links == old(db.links)
  {
    if caller.None? {
      return Failure(NotAuthenticated);
    }
    var user := caller.value;
    var record := Scenario(user, name, employeeIds.GetOr([]), Some(isDefault.GetOr(false)), None, None, None, now, now);
    SelectInsert(db.scenarios, ScenarioOwnedBy(user), db.nextId, record);
    var id := db.InsertScenario(record);
    r := Success(id);
  }

  /** `updateScenario`: renames the caller's scenario and stamps it; its place in the list stays. */
  method UpdateScenario(db: Database, caller: Option<Id>, now: int, id: Id, name: string) returns (r: Result<Id>)
    requires db.Valid()
    modifies db
    ensures db.Valid()
    ensures db.users == old(db.users) && db.nextId == old(db.nextId)
    ensures r == (match Authorize(old(db.scenarios), caller, id, ScenarioNotFound)
                  case Success(_) => Success(id) case Failure(e) => Failure(e))
    ensures r.Failure? ==> unchanged(db)
    ensures r.Success? ==>
      && db.scenarios == old(db.scenarios)[id := old(db.scenarios)[id].(name := name, updatedAt := now)]
      && db.ScenariosOf(caller.value) == old(db.ScenariosOf(caller.value))
      && db.employees == old(db.employees) && db.scrapes == old(db.scrapes) && db.links == old(db.links)
  {
    var check := Authorize(db.scenarios, caller, id, ScenarioNotFound);
    if check.Failure? {
      return Failure(check.error);
    }
    var renamed := db.scenarios[id].(name := name, updatedAt := now);
    SelectPatch(db.scenarios, ScenarioOwnedBy(check.value), db.nextId, id, renamed);
    db.ReplaceScenario(id, renamed);
    r := Success(id);
  }

  /**
   * `deleteScenario`: deletes the caller's scenario unless it is the caller's only one; the
   * employees stay. A caller who has a scenario therefore always keeps one.
   */
  method DeleteScenario(db: Database, caller: Option<Id>, id: Id) returns (r: Result<Id>)
    requires db.Valid()
    modifies db
    ensures db.Valid()
    ensures db.users == old(db.users) && db.nextId == old(db.nextId)
    ensures r.Failure? ==> unchanged(db)
    ensures Authorize(old(db.scenarios), caller, id, ScenarioNotFound).Failure? ==>
      r == Failure(Authorize(old(db.scenarios), caller, id, ScenarioNotFound).error)
    ensures Authorize(old(db.scenarios), caller, id, ScenarioNotFound).Success? ==>
      (r.Failure? <==> |old(db.ScenariosOf(caller.value))| <= 1) &&
      (r.Failure? ==> r.error == LastScenario)
    ensures r.Success? ==>
      && r.value == id
      && db.scenarios == old(db.scenarios) - {id}
      && db.ScenariosOf(caller.value) == RemoveAll(old(db.ScenariosOf(caller.value)), {id})
      && |db.ScenariosOf(caller.value)| == |old(db.ScenariosOf(caller.value))| - 1 >= 1
      && db.employees == old(db.employees) && db.scrapes == old(db.scrapes) && db.links == old(db.links)
  {
    var check := Authorize(db.scenarios, caller, id, ScenarioNotFound);
    if check.Failure? {
      return Failure(check.error);
    }
    var user := check.value;
    var userScenarios := db.ScenariosOf(user);
    if |userScenarios| <= 1 {
      return Failure(LastScenario);
    }
    SelectRemove(db.scenarios, ScenarioOwnedBy(user), db.nextId, id);
    SelectRemoveLength(db.scenarios, ScenarioOwnedBy(user), db.nextId, id);
    db.DeleteScenario(id);
    r := Success(id);
  }

  /**
   * `addEmployeeToScenario`: the caller's scenario gains the caller's employee at the end of its
   * list, and is stamped, unless the employee is already listed, in which case nothing is written.
   */
  method AddEmployeeToScenario(db: Database, caller: Option<Id>, now: int, scenarioId: Id, employeeId: Id)
    returns (r: Result<Id>)
    requires db.Valid()
    modifies db
    ensures db.Valid()
    ensures db.users == old(db.users) && db.nextId == old(db.nextId)
    ensures r.Failure? ==> unchanged(db)
    ensures Authorize(old(db.scenarios), caller, scenarioId, ScenarioNotFound).Failure? ==>
      r == Failure(Authorize(old(db.scenarios), caller, scenarioId, ScenarioNotFound).error)
    ensures Authorize(old(db.scenarios), caller, scenarioId, ScenarioNotFound).Success? ==>
      (r.Failure? <==> employeeId !in old(db.employees) || old(db.employees)[employeeId].userId != caller.value) &&
      (r.Failure? ==> r.error == EmployeeNotFound)
    ensures r.Success? ==>
      && r.value == scenarioId
      && var s := old(db.scenarios)[scenarioId];
      && db.scenarios == (if employeeId in s.employeeIds then old(db.scenarios)
                          else old(db.scenarios)[scenarioId := s.(employeeIds := s.employeeIds + [employeeId], updatedAt := now)])
      && db.scenarios[scenarioId].employeeIds == AppendIfAbsent(s.employeeIds, employeeId)
      && db.employees == old(db.employees) && db.scrapes == old(db.scrapes) && db.links == old(db.links)
  {
    var check := Authorize(db.scenarios, caller, scenarioId, ScenarioNotFound);
    if check.Failure? {
      return Failure(check.error);
    }
    var user := check.value;
    if employeeId !in db.employees || db.employees[employeeId].userId != user {
      return Failure(EmployeeNotFound);
    }
    var s := db.scenarios[scenarioId];
    if employeeId !in s.employeeIds {
      db.ReplaceScenario(scenarioId, s.(employeeIds := s.employeeIds + [employeeId], updatedAt := now));
    }
    r := Success(scenarioId);
  }

  /**
   * `removeEmployeesFromScenario`: the caller's scenario keeps, in order, the ids not among those
   * given, and is stamped even when none was listed. `removeEmployeeFromScenario` is the case of
   * a single id.
   */
  method RemoveEmployeesFromScenario(db: Database, caller: Option<Id>, now: int, scenarioId: Id, employeeIds: seq<Id>)
    returns (r: Result<Id>)
    requires db.Valid()
    modifies db
    ensures db.Valid()
    ensures db.users == old(db.users) && db.nextId == old(db.nextId)
    ensures r == (match Authorize(old(db.scenarios), caller, scenarioId, ScenarioNotFound)
                  case Success(_) => Success(scenarioId) case Failure(e) => Failure(e))
    ensures r.Failure? ==> unchanged(db)
    ensures r.Success? ==>
      && var s := old(db.scenarios)[scenarioId];
      && db.scenarios == old(db.scenarios)[scenarioId :=
           s.(employeeIds := RemoveAll(s.employeeIds, Elements(employeeIds)), updatedAt := now)]
      && db.employees == old(db.employees) && db.scrapes == old(db.scrapes) && db.links == old(db.links)
  {
    var check := Authorize(db.scenarios, caller, scenarioId, ScenarioNotFound);
    if check.Failure? {
      return Failure(check.error);
    }
    var s := db.scenarios[scenarioId];
    var idsToRemove := Elements(employeeIds);
    db.ReplaceScenario(scenarioId, s.(employeeIds := RemoveAll(s.employeeIds, idsToRemove), updatedAt := now));
    r := Success(scenarioId);
  }

  /** `removeEmployeeFromScenario`: drops every occurrence of one id. */
  method RemoveEmployeeFromScenario(db: Database, caller: Option<Id>, now: int, scenarioId: Id, employeeId: Id)
    returns (r: Result<Id>)
    requires db.Valid()
    modifies db
    ensures db.Valid()
    ensures db.users == old(db.users) && db.nextId == old(db.nextId)
    ensures r == (match Authorize(old(db.scenarios), caller, scenarioId, ScenarioNotFound)
                  case Success(_) => Success(scenarioId) case Failure(e) => Failure(e))
    ensures r.Failure? ==> unchanged(db)
    ensures r.Success? ==>
      && var s := old(db.scenarios)[scenarioId];
      && db.scenarios == old(db.scenarios)[scenarioId :=
           s.(employeeIds := RemoveAll(s.employeeIds, {employeeId}), updatedAt := now)]
      && employeeId !in db.scenarios[scenarioId].employeeIds
      && db.employees == old(db.employees) && db.scrapes == old(db.scrapes) && db.links == old(db.links)
  {
    var check := Authorize(db.scenarios, caller, scenarioId, ScenarioNotFound);
    if check.Failure? {
      return Failure(check.error);
    }
    var s := db.scenarios[scenarioId];
    var kept := RemoveAll(s.employeeIds, {employeeId});
    RemoveAllKeeps(s.employeeIds, {employeeId});
    db.ReplaceScenario(scenarioId, s.(employeeIds := kept, updatedAt := now));
    r := Success(scenarioId);
  }

  /** What a LinkedIn import returns: the scenario and the new employees' ids. */
  datatype Import = Import(scenarioId: Id, employeeIds: seq<Id>)

  /**
   * `createScenarioFromLinkedIn`: one new employee of the caller per imported person, in order;
   * then a new scenario listing exactly them (with no `isDefault`); then, when a company URL is
   * given and not empty, a record of the import, stamped like the scenario.
   */
  method CreateScenarioFromLinkedIn(db: Database, caller: Option<Id>, now: int, name: string,
                                    companyUrl: Option<string>, employees: seq<EmployeeFields>)
    returns (r: Result<Import>)
    requires db.Valid()
    modifies db
    ensures db.Valid()
    ensures db.users == old(db.users)
    ensures r.Success? ==>
      db.nextId == old(db.nextId) + |r.value.employeeIds| + 1 + (if TruthyText(companyUrl) then 1 else 0)
    ensures r.Failure? <==> caller.None?
    ensures r.Failure? ==> r.error == NotAuthenticated && unchanged(db)
    ensures r.Success? ==>
      && var start := old(db.nextId);
      && var ids := r.value.employeeIds;
      && |ids| == |employees| && (forall i :: 0 <= i < |ids| ==> ids[i] == start + i)
      && (forall i :: 0 <= i < |ids| ==> ids[i] in db.employees && db.employees[ids[i]] == Employee(caller.value, employees[i]))
      && (forall k :: k in old(db.employees) ==> k in db.employees && db.employees[k] == old(db.employees)[k])
      && (forall k :: k in db.employees ==> k in old(db.employees) || start <= k)
      && r.value.scenarioId == start + |ids|
      && db.scenarios == old(db.scenarios)[r.value.scenarioId := Scenario(caller.value, name, ids, None, None, None, None, now, now)]
      && db.scrapes == (if TruthyText(companyUrl)
                        then old(db.scrapes)[start + |ids| + 1 := Scrape(caller.value, name, companyUrl.value, ids, now)]
                        else old(db.scrapes))
      && db.links == old(db.links)
  {
    if caller.None? {
      return Failure(NotAuthenticated);
    }
    var user := caller.value;
    var employeeIds := db.InsertEmployees(user, employees);
    var scenarioId := db.InsertScenario(Scenario(user, name, employeeIds, None, None, None, None, now, now));
    if TruthyText(companyUrl) {
      var _ := db.InsertScrape(Scrape(user, name, companyUrl.value, employeeIds, now));
    }
    r := Success(Import(scenarioId, employeeIds));
  }

  /** A list in reverse order. */
  function Reverse<T>(s: seq<T>): (r: seq<T>)
    ensures |r| == |s| && forall i :: 0 <= i < |s| ==> r[i] == s[|s| - 1 - i]
  {
    if s == [] then [] else Reverse(s[1..]) + [s[0]]
  }

  /** `getLinkedinScrapes`: nothing when signed out, else the caller's imports, newest first. */
  function GetLinkedinScrapes(db: Database, caller: Option<Id>): (r: seq<Id>)
    reads db
    requires db.Valid()
    ensures caller.None? ==> r == []
    ensures caller.Some? ==>
      && (forall i :: 0 <= i < |r| ==> r[i] in db.scrapes && db.scrapes[r[i]].userId == caller.value)
      && (forall k :: k in db.scrapes && db.scrapes[k].userId == caller.value ==> k in r)
      && (forall i, j :: 0 <= i < j < |r| ==> r[i] > r[j])
  {
    if caller.None? then []
    else
      var oldestFirst := db.ScrapesOf(caller.value);
      SelectSpec(db.scrapes, ScrapeOwnedBy(caller.value), db.nextId);
      var r := Reverse(oldestFirst);
      assert forall k :: k in oldestFirst ==> k in r by {
        forall k | k in oldestFirst ensures k in r {
          var i :| 0 <= i < |oldestFirst| && oldestFirst[i] == k;
          assert r[|oldestFirst| - 1 - i] == k;
        }
      }
      r
  }

  /**
   * `addEmployeesToScenario`: the caller's scenario gains, after its own list, the given ids it
   * does not list yet, in their order; nothing is written when there is none.
   */
  method AddEmployeesToScenario(db: Database, caller: Option<Id>, now: int, scenarioId: Id, employeeIds: seq<Id>)
    returns (r: Result<Id>)
    requires db.Valid()
    modifies db
    ensures db.Valid()
    ensures db.users == old(db.users) && db.nextId == old(db.nextId)
    ensures r == (match Authorize(old(db.scenarios), caller, scenarioId, ScenarioNotFound)
                  case Success(_) => Success(scenarioId) case Failure(e) => Failure(e))
    ensures r.Failure? ==> unchanged(db)
    ensures r.Success? ==>
      && var s := old(db.scenarios)[scenarioId];
      && db.scenarios == (if RemoveAll(employeeIds, Elements(s.employeeIds)) == [] then old(db.scenarios)
                          else old(db.scenarios)[scenarioId :=
                            s.(employeeIds := AppendNew(s.employeeIds, employeeIds), updatedAt := now)])
      && db.scenarios[scenarioId].employeeIds == AppendNew(s.employeeIds, employeeIds)
      && db.employees == old(db.employees) && db.scrapes == old(db.scrapes) && db.links == old(db.links)
  {
    var check := Authorize(db.scenarios, caller, scenarioId, ScenarioNotFound);
    if check.Failure? {
      return Failure(check.error);
    }
    var s := db.scenarios[scenarioId];
    r := Success(scenarioId);
    AddNewIds(db, now, scenarioId, s, employeeIds);
  }

  /** The write shared by `addEmployeesToScenario` and `copyEmployeesFromScenario`. */
  method AddNewIds(db: Database, now: int, scenarioId: Id, s: Scenario, candidates: seq<Id>)
    requires db.Valid() && scenarioId in db.scenarios && db.scenarios[scenarioId] == s
    modifies db
    ensures db.Valid()
    ensures db.scenarios == (if RemoveAll(candidates, Elements(s.employeeIds)) == [] then old(db.scenarios)
                             else old(db.scenarios)[scenarioId :=
                               s.(employeeIds := AppendNew(s.employeeIds, candidates), updatedAt := now)])
    ensures db.scenarios[scenarioId].employeeIds == AppendNew(s.employeeIds, candidates)
    ensures db.employees == old(db.employees) && db.scrapes == old(db.scrapes) && db.links == old(db.links)
    ensures db.users == old(db.users) && db.nextId == old(db.nextId)
  {
    var existingIds := Elements(s.employeeIds);
    var newIds := RemoveAll(candidates, existingIds);
    AppendNewUnchanged(s.employeeIds, candidates);
    if |newIds| > 0 {
      db.ReplaceScenario(scenarioId, s.(employeeIds := s.employeeIds + newIds, updatedAt := now));
    }
  }

  /**
   * `addEmployeesFromLinkedIn`: one new employee of the caller per imported person, appended to
   * the caller's scenario, which is stamped; then a record of the import.
   */
  method AddEmployeesFromLinkedIn(db: Database, caller: Option<Id>, now: int, scenarioId: Id,
                                  companyName: string, companyUrl: string, employees: seq<EmployeeFields>)
    returns (r: Result<Import>)
    requires db.Valid()
    modifies db
    ensures db.Valid()
    ensures db.users == old(db.users)
    ensures r.Success? ==> db.nextId == old(db.nextId) + |r.value.employeeIds| + 1
    ensures r.Failure? <==> Authorize(old(db.scenarios), caller, scenarioId, ScenarioNotFound).Failure?
    ensures r.Failure? ==> r.error == Authorize(old(db.scenarios), caller, scenarioId, ScenarioNotFound).error
    ensures r.Failure? ==> unchanged(db)
    ensures r.Success? ==>
      && var start := old(db.nextId);
      && var ids := r.value.employeeIds;
      && var s := old(db.scenarios)[scenarioId];
      && r.value.scenarioId == scenarioId
      && |ids| == |employees| && (forall i :: 0 <= i < |ids| ==> ids[i] == start + i)
      && (forall i :: 0 <= i < |ids| ==> ids[i] in db.employees && db.employees[ids[i]] == Employee(caller.value, employees[i]))
      && (forall k :: k in old(db.employees) ==> k in db.employees && db.employees[k] == old(db.employees)[k])
      && (forall k :: k in db.employees ==> k in old(db.employees) || start <= k)
      && db.scenarios == old(db.scenarios)[scenarioId := s.(employeeIds := s.employeeIds + ids, updatedAt := now)]
      && db.scrapes == old(db.scrapes)[start + |ids| := Scrape(caller.value, companyName, companyUrl, ids, now)]
      && db.links == old(db.links)
  {
    var check := Authorize(db.scenarios, caller, scenarioId, ScenarioNotFound);
    if check.Failure? {
      return Failure(check.error);
    }
    var user := check.value;
    var s := db.scenarios[scenarioId];
    var employeeIds := db.InsertEmployees(user, employees);
    db.ReplaceScenario(scenarioId, s.(employeeIds := s.employeeIds + employeeIds, updatedAt := now));
    var _ := db.InsertScrape(Scrape(user, companyName, companyUrl, employeeIds, now));
    r := Success(Import(scenarioId, employeeIds));
  }

  /**
   * `copyEmployeesFromScenario`: the caller's target scenario gains, after its own list, the
   * source scenario's ids it does not list yet, in the source's order; the target is checked
   * first.
   */
  method CopyEmployeesFromScenario(db: Database, caller: Option<Id>, now: int, targetScenarioId: Id, sourceScenarioId: Id)
    returns (r: Result<Id>)
    requires db.Valid()
    modifies db
    ensures db.Valid()
    ensures db.users == old(db.users) && db.nextId == old(db.nextId)
    ensures r.Failure? ==> unchanged(db)
    ensures var target := Authorize(old(db.scenarios), caller, targetScenarioId, TargetNotFound);
      var source := Authorize(old(db.scenarios), caller, sourceScenarioId, SourceNotFound);
      && (target.Failure? ==> r == Failure(target.error))
      && (target.Success? && source.Failure? ==> r == Failure(source.error))
      && (target.Success? && source.Success? ==> r == Success(targetScenarioId))
    ensures r.Success? ==>
      && var t := old(db.scenarios)[targetScenarioId];
      && var src := old(db.scenarios)[sourceScenarioId].employeeIds;
      && db.scenarios == (if RemoveAll(src, Elements(t.employeeIds)) == [] then old(db.scenarios)
                          else old(db.scenarios)[targetScenarioId :=
                            t.(employeeIds := AppendNew(t.employeeIds, src), updatedAt := now)])
      && db.employees == old(db.employees) && db.scrapes == old(db.scrapes) && db.links == old(db.links)
  {
    var target := Authorize(db.scenarios, caller, targetScenarioId, TargetNotFound);
    if target.Failure? {
      return Failure(target.error);
    }
    var source := Authorize(db.scenarios, caller, sourceScenarioId, SourceNotFound);
    if source.Failure? {
      return Failure(source.error);
    }
    var t := db.scenarios[targetScenarioId];
    var src := db.scenarios[sourceScenarioId].employeeIds;
    r := Success(targetScenarioId);
    AddNewIds(db, now, targetScenarioId, t, src);
  }

  /** The financial fields a client sends; each absent one is left as it was. */
  datatype Financials = Financials(startingCash: Option<int>, startingCashMonth: Option<int>, startingCashYear: Option<int>)

  /** A scenario with the supplied financial fields written and the update time stamped. */
  function WithFinancials(s: Scenario, f: Financials, now: int): (r: Scenario)
    ensures r.startingCash == if f.startingCash.Some? then f.startingCash else s.startingCash
    ensures r.startingCashMonth == if f.startingCashMonth.Some? then f.startingCashMonth else s.startingCashMonth
    ensures r.startingCashYear == if f.startingCashYear.Some? then f.startingCashYear else s.startingCashYear
    ensures r.updatedAt == now
    ensures r.(startingCash := s.startingCash, startingCashMonth := s.startingCashMonth,
               startingCashYear := s.startingCashYear, updatedAt := s.updatedAt) == s
  {
    s.(startingCash := if f.startingCash.Some? then f.startingCash else s.startingCash,
       startingCashMonth := if f.startingCashMonth.Some? then f.startingCashMonth else s.startingCashMonth,
       startingCashYear := if f.startingCashYear.Some? then f.startingCashYear else s.startingCashYear,
       updatedAt := now)
  }

  /** Sending the same financial settings again changes nothing but the update time. */
  lemma WithFinancialsIdempotent(s: Scenario, f: Financials, now: int, later: int)
    ensures WithFinancials(WithFinancials(s, f, now), f, later) == WithFinancials(s, f, later)
  {
  }

  /** An update that supplies nothing only stamps the scenario. */
  lemma WithNoFinancials(s: Scenario, now: int)
    ensures WithFinancials(s, Financials(None, None, None), now) == s.(updatedAt := now)
  {
  }

  /** `updateScenarioFinancials`: writes the supplied financial fields of the caller's scenario and stamps it. */
  method UpdateScenarioFinancials(db: Database, caller: Option<Id>, now: int, id: Id, f: Financials)
    returns (r: Result<Id>)
    requires db.Valid()
    modifies db
    ensures db.Valid()
    ensures db.users == old(db.users) && db.nextId == old(db.nextId)
    ensures r == (match Authorize(old(db.scenarios), caller, id, ScenarioNotFound)
                  case Success(_) => Success(id) case Failure(e) => Failure(e))
    ensures r.Failure? ==> unchanged(db)
    ensures r.Success? ==>
      && db.scenarios == old(db.scenarios)[id := WithFinancials(old(db.scenarios)[id], f, now)]
      && db.employees == old(db.employees) && db.scrapes == old(db.scrapes) && db.links == old(db.links)
  {
    var check := Authorize(db.scenarios, caller, id, ScenarioNotFound);
    if check.Failure? {
      return Failure(check.error);
    }
    db.ReplaceScenario(id, WithFinancials(db.scenarios[id], f, now));
    r := Success(id);
  }
}
