/**
 * The list computations the store handlers perform on a scenario's `employeeIds`: keeping the ids
 * not in a set (`filter`), appending one id if absent, appending the candidates not yet present,
 * and resolving ids to records in order while dropping the ones with no record.
 */
module IdLists {

  /** The elements of a list, as the `Set` built from it. */
  function Elements<T>(s: seq<T>): set<T> {
    set x | x in s
  }

  /** No element occurs twice. */
  predicate NoDuplicates<T(==)>(s: seq<T>) {
    forall i, j :: 0 <= i < j < |s| ==> s[i] != s[j]
  }

  /** `s.filter(id => !xs.has(id))`: the elements outside `xs`, in their order, repeats kept. */
  function RemoveAll<T(==)>(s: seq<T>, xs: set<T>): seq<T> {
    if s == [] then []
    else
      var rest := RemoveAll(s[1..], xs);
      if s[0] in xs then rest else [s[0]] + rest
  }

  /** Filtering keeps only elements of the list outside the set, and never lengthens it. */
  lemma {:induction false} RemoveAllKeeps<T>(s: seq<T>, xs: set<T>)
    ensures var r := RemoveAll(s, xs);
      |r| <= |s| && forall i :: 0 <= i < |r| ==> r[i] in s && r[i] !in xs
  {
    if s != [] {
      RemoveAllKeeps(s[1..], xs);
      var rest := RemoveAll(s[1..], xs);
      assert forall i :: 0 <= i < |rest| ==> rest[i] in s;
    }
  }

  /** Filtering keeps every element of the list outside the set. */
  lemma {:induction false} RemoveAllComplete<T>(s: seq<T>, xs: set<T>)
    ensures forall y :: y in s && y !in xs ==> y in RemoveAll(s, xs)
  {
    if s != [] {
      RemoveAllComplete(s[1..], xs);
      assert forall y :: y in s ==> y == s[0] || y in s[1..];
    }
  }

  /** A list with nothing in the set is kept whole. */
  lemma {:induction false} RemoveAllNothing<T>(s: seq<T>, xs: set<T>)
    requires forall i :: 0 <= i < |s| ==> s[i] !in xs
    ensures RemoveAll(s, xs) == s
  {
    if s != [] {
      RemoveAllNothing(s[1..], xs);
      assert s == [s[0]] + s[1..];
    }
  }

  /** Filtering distributes over concatenation, so the kept elements stay in their order. */
  lemma {:induction false} RemoveAllAppend<T>(a: seq<T>, b: seq<T>, xs: set<T>)
    ensures RemoveAll(a + b, xs) == RemoveAll(a, xs) + RemoveAll(b, xs)
  {
    if a == [] {
      assert a + b == b;
    } else {
      assert (a + b)[0] == a[0] && (a + b)[1..] == a[1..] + b;
      RemoveAllAppend(a[1..], b, xs);
    }
  }

  /** Filtering keeps a list without duplicates free of them. */
  lemma {:induction false} RemoveAllNoDuplicates<T>(s: seq<T>, xs: set<T>)
    requires NoDuplicates(s)
    ensures NoDuplicates(RemoveAll(s, xs))
  {
    if s != [] {
      RemoveAllNoDuplicates(s[1..], xs);
      RemoveAllKeeps(s[1..], xs);
      var rest := RemoveAll(s[1..], xs);
      assert s[0] !in s[1..] by {
        forall i | 0 <= i < |s[1..]| ensures s[1..][i] != s[0] { assert s[1..][i] == s[i + 1]; }
      }
      assert s[0] !in rest;
    }
  }

  /** Filtering twice with the same set changes nothing more. */
  lemma RemoveAllIdempotent<T>(s: seq<T>, xs: set<T>)
    ensures RemoveAll(RemoveAll(s, xs), xs) == RemoveAll(s, xs)
  {
    RemoveAllKeeps(s, xs);
    RemoveAllNothing(RemoveAll(s, xs), xs);
  }

  /** `includes(x) ? s : [...s, x]`. */
  function AppendIfAbsent<T(==)>(s: seq<T>, x: T): (r: seq<T>)
    ensures x in r && s <= r && |r| <= |s| + 1
    ensures Elements(r) == Elements(s) + {x}
  {
    if x in s then s else s + [x]
  }

  /** Appending an id that is present changes nothing, so appending it again does nothing. */
  lemma AppendIfAbsentIdempotent<T>(s: seq<T>, x: T)
    ensures AppendIfAbsent(AppendIfAbsent(s, x), x) == AppendIfAbsent(s, x)
    ensures NoDuplicates(s) ==> NoDuplicates(AppendIfAbsent(s, x))
  {
  }

  /**
   * `[...existing, ...candidates.filter(id => !new Set(existing).has(id))]`: the candidates not
   * already present appended after the existing list, in the candidates' order.
   */
  function AppendNew<T(==)>(existing: seq<T>, candidates: seq<T>): (r: seq<T>)
    ensures existing <= r
    ensures Elements(r) == Elements(existing) + Elements(candidates)
    ensures r[|existing|..] == RemoveAll(candidates, Elements(existing))
  {
    var newIds := RemoveAll(candidates, Elements(existing));
    RemoveAllKeeps(candidates, Elements(existing));
    RemoveAllComplete(candidates, Elements(existing));
    var r := existing + newIds;
    assert r[|existing|..] == newIds;
    r
  }

  /** With no new candidate the list is unchanged, so the handlers write nothing then. */
  lemma AppendNewUnchanged<T>(existing: seq<T>, candidates: seq<T>)
    ensures RemoveAll(candidates, Elements(existing)) == [] <==> AppendNew(existing, candidates) == existing
    ensures RemoveAll(candidates, Elements(existing)) == [] <==> Elements(candidates) <= Elements(existing)
  {
    var newIds := RemoveAll(candidates, Elements(existing));
    RemoveAllKeeps(candidates, Elements(existing));
    RemoveAllComplete(candidates, Elements(existing));
    if newIds != [] {
      assert newIds[0] in candidates && newIds[0] !in Elements(existing);
    }
    if !(Elements(candidates) <= Elements(existing)) {
      var y :| y in candidates && y !in Elements(existing);
      assert y in newIds;
    }
  }

  /** Appending the same candidates again adds nothing. */
  lemma AppendNewIdempotent<T>(existing: seq<T>, candidates: seq<T>)
    ensures AppendNew(AppendNew(existing, candidates), candidates) == AppendNew(existing, candidates)
  {
    var r := AppendNew(existing, candidates);
    AppendNewUnchanged(r, candidates);
  }

  /** Duplicate-free lists stay so: only candidates absent from the existing list are appended. */
  lemma AppendNewNoDuplicates<T>(existing: seq<T>, candidates: seq<T>)
    requires NoDuplicates(existing) && NoDuplicates(candidates)
    ensures NoDuplicates(AppendNew(existing, candidates))
  {
    var newIds := RemoveAll(candidates, Elements(existing));
    RemoveAllNoDuplicates(candidates, Elements(existing));
    RemoveAllKeeps(candidates, Elements(existing));
    var r := existing + newIds;
    forall i, j | 0 <= i < j < |r|
      ensures r[i] != r[j]
    {
      if j >= |existing| {
        assert r[j] == newIds[j - |existing|];
        if i < |existing| {
          assert r[i] in Elements(existing);
        } else {
          assert r[i] == newIds[i - |existing|];
        }
      }
    }
  }

  /**
   * `ids.map(id => table.get(id)).filter(defined)`: the records of the ids that have one, in the
   * order of the ids.
   */
  function Resolve<K, R(==)>(ids: seq<K>, table: map<K, R>): (r: seq<R>)
    ensures |r| <= |ids|
    ensures forall i :: 0 <= i < |r| ==> r[i] in table.Values
    ensures (forall i :: 0 <= i < |ids| ==> ids[i] in table) ==>
      |r| == |ids| && forall i :: 0 <= i < |r| ==> r[i] == table[ids[i]]
  {
    if ids == [] then []
    else
      var rest := Resolve(ids[1..], table);
      if ids[0] in table then [table[ids[0]]] + rest else rest
  }

  /** Resolution distributes over concatenation: records come out in the order of their ids. */
  lemma {:induction false} ResolveAppend<K, R>(a: seq<K>, b: seq<K>, table: map<K, R>)
    ensures Resolve(a + b, table) == Resolve(a, table) + Resolve(b, table)
  {
    if a == [] {
      assert a + b == b;
    } else {
      assert (a + b)[0] == a[0] && (a + b)[1..] == a[1..] + b;
      ResolveAppend(a[1..], b, table);
    }
  }

  /** An id with no record contributes nothing; one with a record contributes exactly it. */
  lemma ResolveOne<K, R>(k: K, table: map<K, R>)
    ensures Resolve([k], table) == if k in table then [table[k]] else []
  {
  }
}
