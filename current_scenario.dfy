/**
 * Which scenarios the page shows is kept in the URL's query string: `scenario` names the one
 * scenario of the single view, `scenarios` the comma-separated scenarios being compared. The
 * setters copy the current parameters, change one or two of them and navigate to the result,
 * so the other parameters survive.
 */
module CurrentScenario {
  import opened Wrappers
  import opened Text

  /** A query string as `URLSearchParams` holds it: name-value pairs in order, names may repeat. */
  type Params = seq<(string, string)>

  const SingleKey := "scenario"
  const MultiKey := "scenarios"

  /** `params.get(key)`: the value of the first pair with the name, if any. */
  function Get(params: Params, key: string): (r: Option<string>)
    ensures r.None? <==> forall i :: 0 <= i < |params| ==> params[i].0 != key
    ensures r.Some? ==> exists i :: 0 <= i < |params| && params[i] == (key, r.value)
  {
    if params == [] then None
    else if params[0].0 == key then Some(params[0].1)
    else Get(params[1..], key)
  }

  /** `params.delete(key)`: every pair with the name removed, the others kept in order. */
  function Delete(params: Params, key: string): (r: Params)
    ensures |r| <= |params|
    ensures forall i :: 0 <= i < |r| ==> r[i].0 != key && r[i] in params
  {
    if params == [] then []
    else if params[0].0 == key then Delete(params[1..], key)
    else [params[0]] + Delete(params[1..], key)
  }

  /**
   * `params.set(key, value)`: the first pair with the name takes the value and the later ones
   * go; without such a pair, the pair is appended.
   */
  function SetParam(params: Params, key: string, value: string): (r: Params)
  {
    if params == [] then [(key, value)]
    else if params[0].0 == key then [(key, value)] + Delete(params[1..], key)
    else [params[0]] + SetParam(params[1..], key, value)
  }

  /** After a delete the name is gone, and every other name reads as before. */
  lemma {:induction false} GetDelete(params: Params, key: string, other: string)
    ensures Get(Delete(params, key), key) == None
    ensures other != key ==> Get(Delete(params, key), other) == Get(params, other)
  {
    if params != [] {
      GetDelete(params[1..], key, other);
    }
  }

  /** After a set the name reads as the value, and every other name reads as before. */
  lemma {:induction false} GetSetParam(params: Params, key: string, value: string, other: string)
    ensures Get(SetParam(params, key, value), key) == Some(value)
    ensures other != key ==> Get(SetParam(params, key, value), other) == Get(params, other)
  {
    if params != [] {
      if params[0].0 == key {
        GetDelete(params[1..], key, other);
      } else {
        GetSetParam(params[1..], key, value, other);
      }
    }
  }

  /** A set leaves one pair with the name, whatever was there before. */
  lemma {:induction false} SetParamSingle(params: Params, key: string, value: string)
    ensures forall i, j :: 0 <= i < j < |SetParam(params, key, value)| && SetParam(params, key, value)[i].0 == key ==>
      SetParam(params, key, value)[j].0 != key
  {
    if params != [] && params[0].0 != key {
      SetParamSingle(params[1..], key, value);
      var t := SetParam(params[1..], key, value);
      assert SetParam(params, key, value) == [params[0]] + t;
    }
  }

  /** `.filter(Boolean)` on strings: the non-empty ones, in order. */
  function NonEmptyParts(parts: seq<string>): (r: seq<string>)
    ensures |r| <= |parts| && forall i :: 0 <= i < |r| ==> r[i] != "" && r[i] in parts
  {
    if parts == [] then []
    else if parts[0] == "" then NonEmptyParts(parts[1..])
    else [parts[0]] + NonEmptyParts(parts[1..])
  }

  /** A list with no empty string passes the filter whole. */
  lemma {:induction false} NonEmptyPartsKeepsAll(parts: seq<string>)
    requires forall i :: 0 <= i < |parts| ==> parts[i] != ""
    ensures NonEmptyParts(parts) == parts
  {
    if parts != [] {
      NonEmptyPartsKeepsAll(parts[1..]);
    }
  }

  /** `scenarioIds`: the `scenarios` parameter split at commas with empty pieces dropped, or none. */
  function ScenarioIdsOf(params: Params): seq<string> {
    match Get(params, MultiKey)
    case None => []
    case Some(s) => NonEmptyParts(Split(s, ','))
  }

  /** The ids a comparison list shows: non-empty, and without a comma, which would split them. */
  predicate WellFormedIds(ids: seq<string>) {
    forall i :: 0 <= i < |ids| ==> ids[i] != "" && ',' !in ids[i]
  }

  /** Storing ids joined with commas and reading them back gives the same ids. */
  lemma ScenarioIdsRoundTrip(params: Params, ids: seq<string>)
    requires |ids| > 0 && WellFormedIds(ids)
    ensures ScenarioIdsOf(SetParam(params, MultiKey, Join(ids, ','))) == ids
  {
    GetSetParam(params, MultiKey, Join(ids, ','), MultiKey);
    SplitJoin(ids, ',');
    NonEmptyPartsKeepsAll(ids);
  }

  /** The selection as the URL holds it, read and changed through the hook. */
  class ScenarioSelection {
    var params: Params

    constructor(params: Params)
      ensures this.params == params
    {
      this.params := params;
    }

    /** `currentScenarioId`: the `scenario` parameter, or none. */
    function CurrentScenarioId(): Option<string>
      reads this
    {
      Get(params, SingleKey)
    }

    /** `scenarioIds ?? []`. */
    function ScenarioIds(): seq<string>
      reads this
    {
      ScenarioIdsOf(params)
    }

    /**
     * `setCurrentScenarioId`: a given id becomes the single scenario and the comparison list
     * goes; no id (or an empty one) clears the single scenario. Other parameters are kept.
     */
    method SetCurrentScenarioId(id: Option<string>)
      modifies this
      ensures id.Some? && id.value != "" ==>
        params == Delete(SetParam(old(params), SingleKey, id.value), MultiKey)
      ensures !(id.Some? && id.value != "") ==> params == Delete(old(params), SingleKey)
      ensures CurrentScenarioId() == if id.Some? && id.value != "" then id else None
      ensures id.Some? && id.value != "" ==> ScenarioIds() == []
      ensures !(id.Some? && id.value != "") ==> ScenarioIds() == old(ScenarioIds())
      ensures forall k :: k != SingleKey && k != MultiKey ==> Get(params, k) == Get(old(params), k)
    {
      var next := params;
      if id.Some? && id.value != "" {
        next := SetParam(next, SingleKey, id.value);
        next := Delete(next, MultiKey);
      } else {
        next := Delete(next, SingleKey);
      }
      forall k | k != SingleKey && k != MultiKey
        ensures Get(next, k) == Get(params, k)
      {
        if id.Some? && id.value != "" {
          GetSetParam(params, SingleKey, id.value, k);
          GetDelete(SetParam(params, SingleKey, id.value), MultiKey, k);
        } else {
          GetDelete(params, SingleKey, k);
        }
      }
      if id.Some? && id.value != "" {
        GetSetParam(params, SingleKey, id.value, SingleKey);
        GetDelete(SetParam(params, SingleKey, id.value), MultiKey, SingleKey);
        GetDelete(SetParam(params, SingleKey, id.value), MultiKey, MultiKey);
      } else {
        GetDelete(params, SingleKey, SingleKey);
        GetDelete(params, SingleKey, MultiKey);
      }
      params := next;
    }

    /**
     * `setScenarioIds`: a non-empty list becomes the comparison list, joined with commas, and
     * the single scenario goes; an empty list clears the comparison list. Other parameters are
     * kept, and a well-formed list reads back as itself.
     */
    method SetScenarioIds(ids: seq<string>)
      modifies this
      ensures |ids| > 0 ==> params == Delete(SetParam(old(params), MultiKey, Join(ids, ',')), SingleKey)
      ensures |ids| == 0 ==> params == Delete(old(params), MultiKey)
      ensures |ids| > 0 ==> CurrentScenarioId() == None
      ensures |ids| == 0 ==> CurrentScenarioId() == old(CurrentScenarioId()) && ScenarioIds() == []
      ensures |ids| > 0 && WellFormedIds(ids) ==> ScenarioIds() == ids
      ensures forall k :: k != SingleKey && k != MultiKey ==> Get(params, k) == Get(old(params), k)
    {
      var next := params;
      if |ids| > 0 {
        next := SetParam(next, MultiKey, Join(ids, ','));
        next := Delete(next, SingleKey);
      } else {
        next := Delete(next, MultiKey);
      }
      forall k | k != SingleKey && k != MultiKey
        ensures Get(next, k) == Get(params, k)
      {
        if |ids| > 0 {
          GetSetParam(params, MultiKey, Join(ids, ','), k);
          GetDelete(SetParam(params, MultiKey, Join(ids, ',')), SingleKey, k);
        } else {
          GetDelete(params, MultiKey, k);
        }
      }
      if |ids| > 0 {
        var joined := SetParam(params, MultiKey, Join(ids, ','));
        GetDelete(joined, SingleKey, SingleKey);
        GetDelete(joined, SingleKey, MultiKey);
        if WellFormedIds(ids) {
          ScenarioIdsRoundTrip(params, ids);
        }
      } else {
        GetDelete(params, MultiKey, SingleKey);
        GetDelete(params, MultiKey, MultiKey);
      }
      params := next;
    }
  }
}
