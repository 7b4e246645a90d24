/**
 * The scenario sidebar: it lists the user's scenarios, creates a new one under the first free
 * "Untitled Scenario" name, deletes one (moving the selection away from it first) and renames the
 * current one in place. Each awaited mutation is split into the part before the await, which
 * records the request, and the part after it, which receives the outcome.
 */
module AppSidebar {
  import opened Wrappers
  import opened Text

  /** A scenario as the sidebar lists it. */
  datatype ScenarioItem = ScenarioItem(id: string, name: string)

  /** A mutation the sidebar sends to the backend. */
  datatype Request =
    | CreateRequest(name: string)
    | UpdateRequest(id: string, newName: string)
    | DeleteRequest(id: string)

  const BaseName := "Untitled Scenario"
  const DefaultName := "My Scenario"

  /** The k-th name the generator tries: the base name first, then the base name and the counter. */
  function Untitled(k: nat): (r: string)
    ensures k <= 1 ==> r == BaseName
    ensures k >= 2 ==> |r| > |BaseName| + 1 && r[..|BaseName| + 1] == BaseName + " "
  {
    if k <= 1 then BaseName else BaseName + " " + NatToString(k)
  }

  /** Different counters give different names, so the generator never tries a name twice. */
  lemma UntitledInjective(a: nat, b: nat)
    requires a >= 1 && b >= 1 && Untitled(a) == Untitled(b)
    ensures a == b
  {
    if a >= 2 && b >= 2 {
      var prefix := BaseName + " ";
      assert Untitled(a)[|prefix|..] == NatToString(a);
      assert Untitled(b)[|prefix|..] == NatToString(b);
      NatToStringInjective(a, b);
    }
  }

  /** The names of the listed scenarios. */
  function Names(items: seq<ScenarioItem>): (r: set<string>)
    ensures forall i :: 0 <= i < |items| ==> items[i].name in r
    ensures forall n :: n in r ==> exists i :: 0 <= i < |items| && items[i].name == n
  {
    set i | 0 <= i < |items| :: items[i].name
  }

  /** The names tried before the k-th. */
  ghost function Tried(k: nat): set<string> {
    set j: nat | 1 <= j < k :: Untitled(j)
  }

  lemma TriedNext(k: nat)
    requires k >= 1
    ensures Untitled(k) !in Tried(k)
    ensures Tried(k + 1) == Tried(k) + {Untitled(k)}
  {
    if Untitled(k) in Tried(k) {
      var j: nat :| 1 <= j < k && Untitled(j) == Untitled(k);
      UntitledInjective(j, k);
    }
  }

  /**
   * The name `handleCreateScenario` picks: the base name when no scenario holds it, otherwise
   * the base name with the least counter from 2 up that gives a name no scenario holds.
   */
  method UniqueName(scenarios: Option<seq<ScenarioItem>>) returns (name: string)
    ensures scenarios.Some? ==> name !in Names(scenarios.value)
    ensures exists k: nat :: (k >= 1 && name == Untitled(k) &&
      forall j: nat :: 1 <= j < k ==> scenarios.Some? && Untitled(j) in Names(scenarios.value))
  {
    name := BaseName;
    var counter: nat := 1;
    if scenarios.Some? && |scenarios.value| > 0 {
      var existingNames := Names(scenarios.value);
      while name in existingNames
        invariant counter >= 1 && name == Untitled(counter)
        invariant Tried(counter) <= existingNames
        decreases existingNames - Tried(counter)
      {
        TriedNext(counter);
        counter := counter + 1;
        name := BaseName + " " + NatToString(counter);
      }
      assert forall j: nat :: 1 <= j < counter ==> Untitled(j) in Tried(counter);
    } else {
      assert name == Untitled(1);
    }
  }

  /** `scenarios?.filter(s => s._id !== id)`: the listed scenarios other than `id`, in order. */
  function Remaining(items: seq<ScenarioItem>, id: string): (r: seq<ScenarioItem>)
    ensures |r| <= |items|
    ensures forall i :: 0 <= i < |r| ==> r[i].id != id && r[i] in items
  {
    if items == [] then []
    else if items[0].id == id then Remaining(items[1..], id)
    else [items[0]] + Remaining(items[1..], id)
  }

  /**
   * The filter keeps something exactly when some scenario has another id, and then its first
   * element is the first such scenario.
   */
  lemma {:induction false} RemainingFirst(items: seq<ScenarioItem>, id: string)
    ensures Remaining(items, id) == [] <==> forall i :: 0 <= i < |items| ==> items[i].id == id
    ensures Remaining(items, id) != [] ==> exists i :: (0 <= i < |items| && Remaining(items, id)[0] == items[i] &&
      forall j :: 0 <= j < i ==> items[j].id == id)
  {
    if items != [] && items[0].id == id {
      RemainingFirst(items[1..], id);
      if Remaining(items, id) != [] {
        var i :| 0 <= i < |items[1..]| && Remaining(items[1..], id)[0] == items[1..][i] &&
          forall j :: 0 <= j < i ==> items[1..][j].id == id;
        assert Remaining(items, id)[0] == items[i + 1];
        assert forall j :: 0 <= j < i + 1 ==> items[j].id == id by {
          forall j | 0 <= j < i + 1 ensures items[j].id == id {
            if j > 0 { assert items[j] == items[1..][j - 1]; }
          }
        }
      } else {
        assert forall i :: 0 <= i < |items| ==> items[i].id == id by {
          forall i | 0 <= i < |items| ensures items[i].id == id {
            if i > 0 { assert items[i] == items[1..][i - 1]; }
          }
        }
      }
    }
  }

  /** The scenario the selection moves to when the current one is deleted, if any. */
  function NextSelection(scenarios: Option<seq<ScenarioItem>>, id: string): (r: Option<string>)
    ensures r.None? <==> scenarios.None? || forall i :: 0 <= i < |scenarios.value| ==> scenarios.value[i].id == id
    ensures r.Some? ==> r.value != id && exists i :: (0 <= i < |scenarios.value| && scenarios.value[i].id == r.value &&
      forall j :: 0 <= j < i ==> scenarios.value[j].id == id)
  {
    if scenarios.None? then None
    else
      var remaining := Remaining(scenarios.value, id);
      RemainingFirst(scenarios.value, id);
      if |remaining| > 0 then Some(remaining[0].id) else None
  }

  /** The sidebar's state: the query result, the selection, and the create and rename flags. */
  class Sidebar {
    /** `useQuery(getScenarios)`: none while loading. */
    var scenarios: Option<seq<ScenarioItem>>
    /** The selected scenario, as the URL hook reports it. */
    var currentScenarioId: Option<string>
    var isCreating: bool
    var editingScenarioId: Option<string>
    var editingName: string
    /** The mutations sent so far, in order. */
    var requests: seq<Request>

    constructor(scenarios: Option<seq<ScenarioItem>>, currentScenarioId: Option<string>)
      ensures this.scenarios == scenarios && this.currentScenarioId == currentScenarioId
      ensures !isCreating && editingScenarioId.None? && editingName == "" && requests == []
    {
      this.scenarios := scenarios;
      this.currentScenarioId := currentScenarioId;
      isCreating := false;
      editingScenarioId := None;
      editingName := "";
      requests := [];
    }

    /**
     * A new query result arrives; when the list is loaded and empty, the auto-create effect asks
     * for a scenario named "My Scenario".
     */
    method ReceiveScenarios(loaded: Option<seq<ScenarioItem>>)
      modifies this
      ensures scenarios == loaded
      ensures requests == old(requests) + (if loaded == Some([]) then [CreateRequest(DefaultName)] else [])
      ensures currentScenarioId == old(currentScenarioId) && isCreating == old(isCreating)
      ensures editingScenarioId == old(editingScenarioId) && editingName == old(editingName)
    {
      scenarios := loaded;
      if loaded.Some? && |loaded.value| == 0 {
        requests := requests + [CreateRequest(DefaultName)];
      }
    }

    /** The auto-created scenario's id arrives and becomes the selection. */
    method FinishAutoCreate(newId: string)
      modifies this
      ensures currentScenarioId == Some(newId)
      ensures scenarios == old(scenarios) && requests == old(requests) && isCreating == old(isCreating)
      ensures editingScenarioId == old(editingScenarioId) && editingName == old(editingName)
    {
      currentScenarioId := Some(newId);
    }

    /**
     * `handleCreateScenario` up to its await: nothing while a create is in progress; otherwise
     * the create flag is raised and a scenario with a fresh name is requested.
     */
    method BeginCreateScenario() returns (name: Option<string>)
      modifies this
      ensures old(isCreating) ==> name.None? && unchanged(this)
      ensures !old(isCreating) ==> name.Some? && isCreating && requests == old(requests) + [CreateRequest(name.value)]
      ensures !old(isCreating) && scenarios.Some? ==> name.value !in Names(scenarios.value)
      ensures scenarios == old(scenarios) && currentScenarioId == old(currentScenarioId)
      ensures editingScenarioId == old(editingScenarioId) && editingName == old(editingName)
    {
      if isCreating {
        return None;
      }
      isCreating := true;
      var n := UniqueName(scenarios);
      requests := requests + [CreateRequest(n)];
      name := Some(n);
    }

    /**
     * `handleCreateScenario` after its await: a created scenario becomes the selection, a failed
     * create leaves it; either way the create flag drops.
     */
    method FinishCreateScenario(newId: Option<string>)
      modifies this
      ensures !isCreating
      ensures currentScenarioId == if newId.Some? then newId else old(currentScenarioId)
      ensures scenarios == old(scenarios) && requests == old(requests)
      ensures editingScenarioId == old(editingScenarioId) && editingName == old(editingName)
    {
      if newId.Some? {
        currentScenarioId := newId;
      }
      isCreating := false;
    }

    /**
     * `handleDeleteScenario`: deleting the selected scenario first selects the first other
     * listed scenario, or nothing; deleting another leaves the selection. Then the delete is
     * requested.
     */
    method DeleteScenario(scenarioId: string)
      modifies this
      ensures old(currentScenarioId) == Some(scenarioId) ==> currentScenarioId == NextSelection(scenarios, scenarioId)
      ensures old(currentScenarioId) != Some(scenarioId) ==> currentScenarioId == old(currentScenarioId)
      ensures requests == old(requests) + [DeleteRequest(scenarioId)]
      ensures scenarios == old(scenarios) && isCreating == old(isCreating)
      ensures editingScenarioId == old(editingScenarioId) && editingName == old(editingName)
    {
      if currentScenarioId == Some(scenarioId) {
        var remaining := if scenarios.Some? then Some(Remaining(scenarios.value, scenarioId)) else None;
        if remaining.Some? && |remaining.value| > 0 {
          currentScenarioId := Some(remaining.value[0].id);
        } else {
          currentScenarioId := None;
        }
      }
      requests := requests + [DeleteRequest(scenarioId)];
    }

    /** `handleStartRenaming`: only the selected scenario enters editing, with its name. */
    method StartRenaming(scenario: ScenarioItem)
      modifies this
      ensures old(currentScenarioId) == Some(scenario.id) ==>
        editingScenarioId == Some(scenario.id) && editingName == scenario.name
      ensures old(currentScenarioId) != Some(scenario.id) ==>
        editingScenarioId == old(editingScenarioId) && editingName == old(editingName)
      ensures scenarios == old(scenarios) && currentScenarioId == old(currentScenarioId)
      ensures isCreating == old(isCreating) && requests == old(requests)
    {
      if currentScenarioId == Some(scenario.id) {
        editingScenarioId := Some(scenario.id);
        editingName := scenario.name;
      }
    }

    /** The rename field's `onChange`. */
    method EditName(name: string)
      modifies this
      ensures editingName == name
      ensures editingScenarioId == old(editingScenarioId) && scenarios == old(scenarios)
      ensures currentScenarioId == old(currentScenarioId) && isCreating == old(isCreating) && requests == old(requests)
    {
      editingName := name;
    }

    /**
     * `handleRenameSave` up to its await: without a scenario being edited, nothing; with a blank
     * name, editing ends and nothing is saved; otherwise the trimmed name is requested and
     * `saving` says an update is awaited.
     */
    method BeginRenameSave() returns (saving: bool)
      modifies this
      ensures old(editingScenarioId).None? ==> !saving && unchanged(this)
      ensures old(editingScenarioId).Some? && AllWhitespace(old(editingName)) ==>
        !saving && editingScenarioId.None? && requests == old(requests)
      ensures old(editingScenarioId).Some? && !AllWhitespace(old(editingName)) ==>
        && saving && editingScenarioId == old(editingScenarioId)
        && requests == old(requests) + [UpdateRequest(old(editingScenarioId).value, Trim(old(editingName)))]
        && Trim(old(editingName)) != ""
      ensures editingName == old(editingName) && scenarios == old(scenarios)
      ensures currentScenarioId == old(currentScenarioId) && isCreating == old(isCreating)
    {
      if editingScenarioId.None? {
        return false;
      }
      if !AllWhitespace(editingName) {
        TrimSpec(editingName);
        requests := requests + [UpdateRequest(editingScenarioId.value, Trim(editingName))];
        return true;
      }
      editingScenarioId := None;
      saving := false;
    }

    /**
     * `handleRenameSave` after its await: a completed update ends editing; an update that
     * throws skips the rest of the handler, so editing goes on.
     */
    method FinishRenameSave(succeeded: bool)
      modifies this
      ensures succeeded ==> editingScenarioId.None?
      ensures !succeeded ==> editingScenarioId == old(editingScenarioId)
      ensures editingName == old(editingName) && scenarios == old(scenarios)
      ensures currentScenarioId == old(currentScenarioId) && isCreating == old(isCreating) && requests == old(requests)
    {
      if succeeded {
        editingScenarioId := None;
      }
    }

    /** `handleRenameKeyDown`: Enter saves, Escape ends editing without saving, other keys do nothing. */
    method RenameKeyDown(key: string) returns (saving: bool)
      modifies this
      ensures key == "Escape" ==> !saving && editingScenarioId.None? && requests == old(requests)
      ensures key != "Enter" && key != "Escape" ==> !saving && unchanged(this)
      ensures key == "Enter" && old(editingScenarioId).None? ==> !saving && unchanged(this)
      ensures key == "Enter" && old(editingScenarioId).Some? && AllWhitespace(old(editingName)) ==>
        !saving && editingScenarioId.None? && requests == old(requests)
      ensures key == "Enter" && old(editingScenarioId).Some? && !AllWhitespace(old(editingName)) ==>
        && saving && editingScenarioId == old(editingScenarioId)
        && requests == old(requests) + [UpdateRequest(old(editingScenarioId).value, Trim(old(editingName)))]
      ensures editingName == old(editingName) && scenarios == old(scenarios)
      ensures currentScenarioId == old(currentScenarioId) && isCreating == old(isCreating)
    {
      saving := false;
      if key == "Enter" {
        saving := BeginRenameSave();
      } else if key == "Escape" {
        editingScenarioId := None;
      }
    }
  }
}
