/**
 * The application's database as the server handlers see it: one table per kind of record, each a
 * map from document id to record, and a counter from which inserts draw fresh ids. Ids are handed
 * out in increasing order, so listing a table's ids in ascending order lists its records in
 * creation order, which is the order in which an index query returns records that tie on the
 * index.
 */
module Store {
  import opened Wrappers
  import opened IdLists

  /** A document id. Users live in the authentication tables; their ids are not drawn here. */
  type Id = nat

  /** The fields of an employee that a client supplies; each may be absent. */
  datatype EmployeeFields = EmployeeFields(
    firstName: Option<string>,
    lastName: Option<string>,
    pictureUrl: Option<string>,
    position: Option<string>,
    salary: Option<int>,
    startMonth: Option<int>,
    startYear: Option<int>,
    linkedinUrl: Option<string>)

  /** The fields with nothing supplied. */
  const NoFields := EmployeeFields(None, None, None, None, None, None, None, None)

  /** An employee record: its owner and its fields. */
  datatype Employee = Employee(userId: Id, fields: EmployeeFields)

  /**
   * A scenario record. The financial fields and `isDefault` are written by the handlers although
   * the table's declared schema does not list them.
   */
  datatype Scenario = Scenario(
    userId: Id,
    name: string,
    employeeIds: seq<Id>,
    isDefault: Option<bool>,
    startingCash: Option<int>,
    startingCashMonth: Option<int>,
    startingCashYear: Option<int>,
    createdAt: int,
    updatedAt: int)

  /** A record of a LinkedIn import. */
  datatype Scrape = Scrape(userId: Id, companyName: string, companyUrl: string, employeeIds: seq<Id>, createdAt: int)

  /** A share link: the token that gives read access to a user's scenarios. */
  datatype SharedLink = SharedLink(userId: Id, token: string, createdAt: int)

  /** What the authentication tables hold about a user. */
  datatype User = User(name: Option<string>, email: Option<string>)

  /**
   * The ids below `n` whose record satisfies `p`, ascending: an index query's `collect()` when `p`
   * matches the index key.
   */
  function Select<R>(m: map<Id, R>, p: R -> bool, n: nat): seq<Id>
    decreases n
  {
    if n == 0 then []
    else
      var rest := Select(m, p, n - 1);
      if n - 1 in m && p(m[n - 1]) then rest + [n - 1] else rest
  }

  /**
   * The selection lists, in ascending order and each once, exactly the ids below `n` that have a
   * record satisfying `p`.
   */
  lemma {:induction false} SelectSpec<R>(m: map<Id, R>, p: R -> bool, n: nat)
    ensures var r := Select(m, p, n);
      && (forall i :: 0 <= i < |r| ==> r[i] < n && r[i] in m && p(m[r[i]]))
      && (forall i, j :: 0 <= i < j < |r| ==> r[i] < r[j])
      && (forall k :: 0 <= k < n && k in m && p(m[k]) ==> k in r)
      && NoDuplicates(r)
    decreases n
  {
    if n > 0 {
      SelectSpec(m, p, n - 1);
    }
  }

  /** Replacing a record by one that `p` judges alike leaves the selection as it was. */
  lemma {:induction false} SelectPatch<R>(m: map<Id, R>, p: R -> bool, n: nat, k: Id, v: R)
    requires k in m && p(v) == p(m[k])
    ensures Select(m[k := v], p, n) == Select(m, p, n)
  {
    if n > 0 {
      SelectPatch(m, p, n - 1, k, v);
      var m' := m[k := v];
      assert (n - 1 in m' && p(m'[n - 1])) == (n - 1 in m && p(m[n - 1]));
    }
  }

  /** A record inserted under the next id joins the end of the selection when `p` holds of it. */
  lemma {:induction false} SelectInsert<R>(m: map<Id, R>, p: R -> bool, n: nat, v: R)
    requires forall k :: k in m ==> k < n
    ensures Select(m[n := v], p, n + 1) == Select(m, p, n) + (if p(v) then [n] else [])
  {
    SelectBelow(m, n, p, n, v);
  }

  /** Ids at or above the bound do not affect the selection. */
  lemma {:induction false} SelectBelow<R>(m: map<Id, R>, k: Id, p: R -> bool, n: nat, v: R)
    requires n <= k
    ensures Select(m[k := v], p, n) == Select(m, p, n)
    decreases n
  {
    if n > 0 {
      SelectBelow(m, k, p, n - 1, v);
      var m' := m[k := v];
      assert (n - 1 in m' && p(m'[n - 1])) == (n - 1 in m && p(m[n - 1]));
    }
  }

  /** Removing a selected record removes exactly its id from the selection. */
  lemma {:induction false} SelectRemove<R>(m: map<Id, R>, p: R -> bool, n: nat, k: Id)
    requires k in m && p(m[k]) && k < n
    ensures Select(m - {k}, p, n) == RemoveAll(Select(m, p, n), {k})
    decreases n
  {
    var rest: seq<Id> := Select(m, p, n - 1);
    var m': map<Id, R> := m - {k};
    if k == n - 1 {
      SelectBelow(m', k, p, n - 1, m[k]);
      assert m'[k := m[k]] == m;
      SelectSpec(m, p, n - 1);
      assert k !in rest;
      RemoveAllAppend(rest, [k], {k});
      assert RemoveAll([k], {k}) == [];
      RemoveAllNothing(rest, {k});
      assert Select(m, p, n) == rest + [k];
      assert Select(m', p, n) == rest;
      assert Select(m', p, n) == RemoveAll(Select(m, p, n), {k});
    } else {
      SelectRemove(m, p, n - 1, k);
      assert Select(m', p, n - 1) == RemoveAll(rest, {k});
      var keep := n - 1 in m && p(m[n - 1]);
      assert (n - 1 in m' && p(m'[n - 1])) == keep;
      if keep {
        var last: seq<Id> := [n - 1];
        RemoveAllAppend(rest, last, {k});
        assert RemoveAll(last, {k}) == last;
        assert Select(m, p, n) == rest + last;
        assert Select(m', p, n) == Select(m', p, n - 1) + last;
      } else {
        assert Select(m, p, n) == rest;
        assert Select(m', p, n) == Select(m', p, n - 1);
        assert Select(m', p, n) == RemoveAll(Select(m, p, n), {k});
      }
    }
  }

  /** Removing a selected record shortens the selection by one. */
  lemma {:induction false} SelectRemoveLength<R>(m: map<Id, R>, p: R -> bool, n: nat, k: Id)
    requires k in m && p(m[k]) && k < n
    ensures |Select(m - {k}, p, n)| == |Select(m, p, n)| - 1
    decreases n
  {
    var m': map<Id, R> := m - {k};
    if k == n - 1 {
      SelectBelow(m', k, p, n - 1, m[k]);
      assert m'[k := m[k]] == m;
    } else {
      SelectRemoveLength(m, p, n - 1, k);
      assert (n - 1 in m' && p(m'[n - 1])) == (n - 1 in m && p(m[n - 1]));
    }
  }

  /** The index keys, as the predicates on records that the index queries select by. */
  function ScenarioOwnedBy(user: Id): Scenario -> bool { (s: Scenario) => s.userId == user }
  function EmployeeOwnedBy(user: Id): Employee -> bool { (e: Employee) => e.userId == user }
  function ScrapeOwnedBy(user: Id): Scrape -> bool { (s: Scrape) => s.userId == user }
  function LinkOwnedBy(user: Id): SharedLink -> bool { (l: SharedLink) => l.userId == user }
  function LinkHasToken(token: string): SharedLink -> bool { (l: SharedLink) => l.token == token }

  /** The employees of a user, as the map `new Map(employees.map(e => [e._id, e]))` of them. */
  function OwnedBy(employees: map<Id, Employee>, user: Id): (r: map<Id, Employee>)
    ensures forall k :: k in r <==> k in employees && employees[k].userId == user
    ensures forall k :: k in r ==> r[k] == employees[k]
  {
    map k | k in employees && employees[k].userId == user :: employees[k]
  }

  /**
   * The database. Every stored id is below `nextId`; `users` belongs to the authentication
   * tables, which these handlers only read.
   */
  class Database {
    var employees: map<Id, Employee>
    var scenarios: map<Id, Scenario>
    var scrapes: map<Id, Scrape>
    var links: map<Id, SharedLink>
    var users: map<Id, User>
    var nextId: nat

    ghost predicate Valid()
      reads this
    {
      && (forall k :: k in employees ==> k < nextId)
      && (forall k :: k in scenarios ==> k < nextId)
      && (forall k :: k in scrapes ==> k < nextId)
      && (forall k :: k in links ==> k < nextId)
    }

    /** An empty database over the given users. */
    constructor(users: map<Id, User>)
      ensures Valid()
      ensures employees == map[] && scenarios == map[] && scrapes == map[] && links == map[]
      ensures this.users == users && nextId == 0
    {
      employees, scenarios, scrapes, links := map[], map[], map[], map[];
      this.users := users;
      nextId := 0;
    }

    /** The scenarios of a user, in creation order: the `by_user` index of `scenarios`. */
    function ScenariosOf(user: Id): seq<Id>
      reads this
    {
      Select(scenarios, ScenarioOwnedBy(user), nextId)
    }

    /** The employees of a user, in creation order: the `by_user` index of `employees`. */
    function EmployeesOf(user: Id): seq<Id>
      reads this
    {
      Select(employees, EmployeeOwnedBy(user), nextId)
    }

    /** The LinkedIn imports of a user, in creation order: the `by_user` index of `linkedinScrapes`. */
    function ScrapesOf(user: Id): seq<Id>
      reads this
    {
      Select(scrapes, ScrapeOwnedBy(user), nextId)
    }

    /** The share links of a user, in creation order: the `by_user` index of `sharedLinks`. */
    function LinksOf(user: Id): seq<Id>
      reads this
    {
      Select(links, LinkOwnedBy(user), nextId)
    }

    /** The share links with a token, in creation order: the `by_token` index of `sharedLinks`. */
    function LinksWithToken(token: string): seq<Id>
      reads this
    {
      Select(links, LinkHasToken(token), nextId)
    }

    /** `ctx.db.insert("employees", …)`: a fresh id, above every id in use. */
    method InsertEmployee(e: Employee) returns (id: Id)
      requires Valid()
      modifies this
      ensures Valid() && id == old(nextId) && nextId == id + 1 && id !in old(employees)
      ensures employees == old(employees)[id := e]
      ensures scenarios == old(scenarios) && scrapes == old(scrapes) && links == old(links) && users == old(users)
    {
      id := nextId;
      employees := employees[id := e];
      nextId := nextId + 1;
    }

    /** `ctx.db.insert("scenarios", …)`. */
    method InsertScenario(s: Scenario) returns (id: Id)
      requires Valid()
      modifies this
      ensures Valid() && id == old(nextId) && nextId == id + 1 && id !in old(scenarios)
      ensures scenarios == old(scenarios)[id := s]
      ensures employees == old(employees) && scrapes == old(scrapes) && links == old(links) && users == old(users)
    {
      id := nextId;
      scenarios := scenarios[id := s];
      nextId := nextId + 1;
    }

    /** `ctx.db.insert("linkedinScrapes", …)`. */
    method InsertScrape(s: Scrape) returns (id: Id)
      requires Valid()
      modifies this
      ensures Valid() && id == old(nextId) && nextId == id + 1 && id !in old(scrapes)
      ensures scrapes == old(scrapes)[id := s]
      ensures employees == old(employees) && scenarios == old(scenarios) && links == old(links) && users == old(users)
    {
      id := nextId;
      scrapes := scrapes[id := s];
      nextId := nextId + 1;
    }

    /** `ctx.db.insert("sharedLinks", …)`. */
    method InsertLink(l: SharedLink) returns (id: Id)
      requires Valid()
      modifies this
      ensures Valid() && id == old(nextId) && nextId == id + 1 && id !in old(links)
      ensures links == old(links)[id := l]
      ensures employees == old(employees) && scenarios == old(scenarios) && scrapes == old(scrapes) && users == old(users)
    {
      id := nextId;
      links := links[id := l];
      nextId := nextId + 1;
    }

    /** `ctx.db.patch(id, …)` on a scenario, given the patched record. */
    method ReplaceScenario(id: Id, s: Scenario)
      requires Valid() && id in scenarios
      modifies this
      ensures Valid() && scenarios == old(scenarios)[id := s] && nextId == old(nextId)
      ensures employees == old(employees) && scrapes == old(scrapes) && links == old(links) && users == old(users)
    {
      scenarios := scenarios[id := s];
    }

    /** `ctx.db.patch(id, …)` on an employee, given the patched record. */
    method ReplaceEmployee(id: Id, e: Employee)
      requires Valid() && id in employees
      modifies this
      ensures Valid() && employees == old(employees)[id := e] && nextId == old(nextId)
      ensures scenarios == old(scenarios) && scrapes == old(scrapes) && links == old(links) && users == old(users)
    {
      employees := employees[id := e];
    }

    /** `ctx.db.delete(id)` on a scenario. */
    method DeleteScenario(id: Id)
      requires Valid()
      modifies this
      ensures Valid() && scenarios == old(scenarios) - {id} && nextId == old(nextId)
      ensures employees == old(employees) && scrapes == old(scrapes) && links == old(links) && users == old(users)
    {
      scenarios := scenarios - {id};
    }

    /** `ctx.db.delete(id)` on an employee. */
    method DeleteEmployee(id: Id)
      requires Valid()
      modifies this
      ensures Valid() && employees == old(employees) - {id} && nextId == old(nextId)
      ensures scenarios == old(scenarios) && scrapes == old(scrapes) && links == old(links) && users == old(users)
    {
      employees := employees - {id};
    }

    /**
     * `args.employees.map(emp => ctx.db.insert("employees", { userId, ...emp }))`: one fresh id
     * per input, in input order, each record owned by the user; no other record changes.
     */
    method InsertEmployees(user: Id, fields: seq<EmployeeFields>) returns (ids: seq<Id>)
      requires Valid()
      modifies this
      ensures Valid() && |ids| == |fields| && nextId == old(nextId) + |fields|
      ensures forall i :: 0 <= i < |ids| ==> ids[i] == old(nextId) + i
      ensures forall i :: 0 <= i < |ids| ==> ids[i] in employees && employees[ids[i]] == Employee(user, fields[i])
      ensures forall k :: k in old(employees) ==> k in employees && employees[k] == old(employees)[k]
      ensures forall k :: k in employees ==> k in old(employees) || old(nextId) <= k
      ensures scenarios == old(scenarios) && scrapes == old(scrapes) && links == old(links) && users == old(users)
    {
      ids := [];
      for i := 0 to |fields|
        invariant Valid() && |ids| == i && nextId == old(nextId) + i
        invariant forall j :: 0 <= j < i ==> ids[j] == old(nextId) + j
        invariant forall j :: 0 <= j < i ==> ids[j] in employees && employees[ids[j]] == Employee(user, fields[j])
        invariant forall k :: k in old(employees) ==> k in employees && employees[k] == old(employees)[k]
        invariant forall k :: k in employees ==> k in old(employees) || old(nextId) <= k
        invariant scenarios == old(scenarios) && scrapes == old(scrapes) && links == old(links) && users == old(users)
      {
        var id := InsertEmployee(Employee(user, fields[i]));
        ids := ids + [id];
      }
    }
  }
}
