/**
 * Read-only sharing. A user owns at most one share link in practice: asking for a link returns
 * the user's first one if there is any and only otherwise creates one with a fresh random token.
 * Anyone holding a token can read the owner's display name, scenarios and employees.
 */
module SharedLinks {
  import opened Wrappers
  import opened IdLists
  import opened Store

  const NotAuthenticated := "Not authenticated"

  /** The characters a token is drawn from: lower-case letters, upper-case letters, digits. */
  const TokenAlphabet := "abcdefghijklmnopqrstuvwxyzABCDEFGHIJKLMNOPQRSTUVWXYZ0123456789"

  /** The length of a token. */
  const TokenLength := 16

  /**
   * `generateToken`: sixteen characters, each picked from the alphabet. The random index is a
   * choice the model leaves open.
   */
  method GenerateToken() returns (token: string)
    ensures |token| == TokenLength
    ensures forall i :: 0 <= i < |token| ==> token[i] in TokenAlphabet
  {
    token := "";
    for i := 0 to TokenLength
      invariant |token| == i
      invariant forall j :: 0 <= j < i ==> token[j] in TokenAlphabet
    {
      var index :| 0 <= index < |TokenAlphabet|;
      token := token + [TokenAlphabet[index]];
    }
  }

  /**
   * `getMySharedLink`: `.first()` of the `by_user` index, so the token of the caller's oldest
   * link (the least id among the caller's), or nothing.
   */
  function GetMySharedLink(db: Database, caller: Option<Id>): (r: Option<string>)
    reads db
    requires db.Valid()
    ensures r.Some? <==> caller.Some? && exists k :: k in db.links && db.links[k].userId == caller.value
    ensures r.Some? ==>
      exists k ::
        && k in db.links && db.links[k].userId == caller.value && db.links[k].token == r.value
        && forall k' :: k' in db.links && db.links[k'].userId == caller.value ==> k <= k'
  {
    if caller.None? then None
    else
      var mine := db.LinksOf(caller.value);
      SelectSpec(db.links, LinkOwnedBy(caller.value), db.nextId);
      if mine == [] then None
      else
        assert forall k' :: k' in db.links && db.links[k'].userId == caller.value ==> mine[0] <= k' by {
          forall k' | k' in db.links && db.links[k'].userId == caller.value
            ensures mine[0] <= k'
          {
            assert LinkOwnedBy(caller.value)(db.links[k']);
            assert k' in mine;
          }
        }
        Some(db.links[mine[0]].token)
  }

  /**
   * `createOrGetSharedLink`: the token of the caller's first link when there is one, writing
   * nothing; otherwise a new link of the caller with a fresh token, created now. Either way the
   * token returned is then the caller's link, so asking again returns it again.
   */
  method CreateOrGetSharedLink(db: Database, caller: Option<Id>, now: int) returns (r: Result<string>)
    requires db.Valid()
    modifies db
    ensures db.Valid()
    ensures db.users == old(db.users)
    ensures db.nextId == old(db.nextId) + (if r.Success? && old(GetMySharedLink(db, caller)).None? then 1 else 0)
    ensures r.Failure? <==> caller.None?
    ensures r.Failure? ==> r.error == NotAuthenticated && unchanged(db)
    ensures r.Success? && old(GetMySharedLink(db, caller)).Some? ==>
      r.value == old(GetMySharedLink(db, caller)).value && unchanged(db)
    ensures r.Success? && old(GetMySharedLink(db, caller)).None? ==>
      && |r.value| == TokenLength && (forall i :: 0 <= i < |r.value| ==> r.value[i] in TokenAlphabet)
      && db.links == old(db.links)[old(db.nextId) := SharedLink(caller.value, r.value, now)]
      && db.employees == old(db.employees) && db.scenarios == old(db.scenarios) && db.scrapes == old(db.scrapes)
    ensures r.Success? ==> GetMySharedLink(db, caller) == Some(r.value)
  {
    if caller.None? {
      return Failure(NotAuthenticated);
    }
    var user := caller.value;
    var mine := db.LinksOf(user);
    if mine != [] {
      SelectSpec(db.links, LinkOwnedBy(user), db.nextId);
      return Success(db.links[mine[0]].token);
    }
    var token := GenerateToken();
    var link := SharedLink(user, token, now);
    SelectInsert(db.links, LinkOwnedBy(user), db.nextId, link);
    var _ := db.InsertLink(link);
    r := Success(token);
  }

  /** `owner?.name ?? owner?.email ?? "Anonymous"`: an empty name is still a name. */
  function OwnerName(owner: Option<User>): (r: string)
    ensures owner.Some? && owner.value.name.Some? ==> r == owner.value.name.value
    ensures owner.Some? && owner.value.name.None? && owner.value.email.Some? ==> r == owner.value.email.value
    ensures owner.None? || (owner.value.name.None? && owner.value.email.None?) ==> r == "Anonymous"
  {
    if owner.Some? && owner.value.name.Some? then owner.value.name.value
    else if owner.Some? && owner.value.email.Some? then owner.value.email.value
    else "Anonymous"
  }

  /** What a share link shows: the owner's display name and email, and the owner's scenarios. */
  datatype SharedData = SharedData(ownerName: string, ownerEmail: Option<string>, scenarios: seq<ScenarioView>)

  /** A scenario as shown: the record and its employees. */
  datatype ScenarioView = ScenarioView(scenario: Scenario, employees: seq<Employee>)

  /**
   * The scenarios of `owner`, in creation order, each with the records of those of its employee
   * ids that name an employee of `owner`, in list order.
   */
  function ScenarioViews(scenarios: map<Id, Scenario>, employees: map<Id, Employee>, ids: seq<Id>, owner: Id)
    : (r: seq<ScenarioView>)
    requires forall i :: 0 <= i < |ids| ==> ids[i] in scenarios
  {
    var employeeMap := OwnedBy(employees, owner);
    seq(|ids|, i requires 0 <= i < |ids| => ScenarioView(scenarios[ids[i]], Resolve(scenarios[ids[i]].employeeIds, employeeMap)))
  }

  /**
   * `getSharedData`: nothing when no link has the token; otherwise, for the owner of the first
   * link with it, the display name, the email, and every scenario of the owner with its employees.
   */
  function GetSharedData(db: Database, token: string): (r: Option<SharedData>)
    reads db
    requires db.Valid()
  {
    var withToken := db.LinksWithToken(token);
    SelectSpec(db.links, LinkHasToken(token), db.nextId);
    if withToken == [] then None
    else
      var link := db.links[withToken[0]];
      var owner := if link.userId in db.users then Some(db.users[link.userId]) else None;
      var scenarioIds := db.ScenariosOf(link.userId);
      SelectSpec(db.scenarios, ScenarioOwnedBy(link.userId), db.nextId);
      Some(SharedData(OwnerName(owner), if owner.Some? then owner.value.email else None,
        ScenarioViews(db.scenarios, db.employees, scenarioIds, link.userId)))
  }

  /**
   * A token opens data exactly when some link has it; what it opens belongs to that link's owner
   * alone: every scenario shown is the owner's, every scenario of the owner is shown, and every
   * employee shown is an employee of the owner.
   */
  lemma SharedDataIsTheOwners(db: Database, token: string)
    requires db.Valid()
    ensures GetSharedData(db, token).Some? <==> exists k :: k in db.links && db.links[k].token == token
    ensures var r := GetSharedData(db, token);
      r.Some? ==> exists k :: (k in db.links && db.links[k].token == token &&
        (var owner := db.links[k].userId;
         && (forall i :: 0 <= i < |r.value.scenarios| ==> r.value.scenarios[i].scenario.userId == owner)
         && (forall s :: s in db.scenarios.Values && s.userId == owner ==>
               exists i :: 0 <= i < |r.value.scenarios| && r.value.scenarios[i].scenario == s)
         && (forall i, j :: 0 <= i < |r.value.scenarios| && 0 <= j < |r.value.scenarios[i].employees| ==>
               r.value.scenarios[i].employees[j] in db.employees.Values && r.value.scenarios[i].employees[j].userId == owner)))
  {
    var withToken := db.LinksWithToken(token);
    SelectSpec(db.links, LinkHasToken(token), db.nextId);
    if withToken != [] {
      var k := withToken[0];
      var owner := db.links[k].userId;
      var r := GetSharedData(db, token).value;
      var scenarioIds := db.ScenariosOf(owner);
      SelectSpec(db.scenarios, ScenarioOwnedBy(owner), db.nextId);
      assert |r.scenarios| == |scenarioIds|;
      var employeeMap := OwnedBy(db.employees, owner);
      forall i, j | 0 <= i < |r.scenarios| && 0 <= j < |r.scenarios[i].employees|
        ensures r.scenarios[i].employees[j] in db.employees.Values && r.scenarios[i].employees[j].userId == owner
      {
        var e := r.scenarios[i].employees[j];
        assert e in employeeMap.Values;
        var id :| id in employeeMap && employeeMap[id] == e;
      }
      forall s | s in db.scenarios.Values && s.userId == owner
        ensures exists i :: 0 <= i < |r.scenarios| && r.scenarios[i].scenario == s
      {
        var id :| id in db.scenarios && db.scenarios[id] == s;
        var i :| 0 <= i < |scenarioIds| && scenarioIds[i] == id;
        assert r.scenarios[i].scenario == s;
      }
    }
  }
}
