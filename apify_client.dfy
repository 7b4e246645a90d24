/**
 * Turning scraped LinkedIn profiles into candidate employees: each profile's position at the
 * company being imported is found by comparing normalised company URLs, and profiles whose
 * position has no start month or year are dropped.
 */
module ApifyClient {
  import opened Wrappers

  /** When a position started, each part possibly missing. */
  datatype StartedOn = StartedOn(month: Option<int>, year: Option<int>)

  /** A position on a profile; only the parts the import reads. */
  datatype Position = Position(
    title: Option<string>,
    current: Option<bool>,
    companyLinkedinUrl: Option<string>,
    startedOn: Option<StartedOn>)

  /** A scraped profile; only the parts the import reads. */
  datatype Item = Item(
    firstName: Option<string>,
    lastName: Option<string>,
    pictureUrl: Option<string>,
    currentPositions: Option<seq<Position>>)

  /** A candidate employee as the import hands it on. */
  datatype FilteredEmployee = FilteredEmployee(
    firstName: string,
    lastName: string,
    pictureUrl: string,
    currentTitle: Option<string>,
    currentStartMonth: Option<int>,
    currentStartYear: Option<int>)

  /**
   * How a URL whose host ends in `linkedin.com` is rewritten (query and fragment dropped,
   * reserialised, one trailing slash removed); none for a URL that does not parse or has another
   * host. URL parsing is not part of this model, so the rewriting is a parameter.
   */
  type LinkedinCanonical = string -> Option<string>

  /** `url.replace(/\/$/, "")`: one trailing slash removed, if there is one. */
  function StripTrailingSlash(url: string): (r: string)
    ensures r == url || r + "/" == url
    ensures |url| > 0 && url[|url| - 1] == '/' <==> r + "/" == url
  {
    if |url| > 0 && url[|url| - 1] == '/' then url[..|url| - 1] else url
  }

  /** At most one slash goes: a URL ending in two slashes keeps one. */
  lemma StripTrailingSlashOnce(url: string)
    ensures StripTrailingSlash(url + "//") == url + "/"
    ensures StripTrailingSlash(StripTrailingSlash(url + "/")) == StripTrailingSlash(url)
  {
    assert (url + "//")[..|url| + 1] == url + "/";
    assert (url + "/")[..|url|] == url;
  }

  /** `normalizeLinkedinCompanyUrl`: the LinkedIn rewriting when it applies, else the slash fallback. */
  function NormalizeCompanyUrl(url: string, canonical: LinkedinCanonical): string {
    match canonical(url)
    case Some(u) => u
    case None => StripTrailingSlash(url)
  }

  /** The `find` test: the position is current and its company URL is given and normalises to the target. */
  predicate Matches(pos: Position, normalizedCompanyUrl: string, canonical: LinkedinCanonical) {
    && pos.current == Some(true)
    && pos.companyLinkedinUrl.Some? && pos.companyLinkedinUrl.value != ""
    && NormalizeCompanyUrl(pos.companyLinkedinUrl.value, canonical) == normalizedCompanyUrl
  }

  /** `positions.find(...)`: the index of the first matching position, if any. */
  function FirstMatch(positions: seq<Position>, target: string, canonical: LinkedinCanonical): (r: Option<nat>)
    ensures r.Some? ==> r.value < |positions| && Matches(positions[r.value], target, canonical)
    ensures r.Some? ==> forall j :: 0 <= j < r.value ==> !Matches(positions[j], target, canonical)
    ensures r.None? ==> forall j :: 0 <= j < |positions| ==> !Matches(positions[j], target, canonical)
  {
    if positions == [] then None
    else if Matches(positions[0], target, canonical) then Some(0)
    else
      match FirstMatch(positions[1..], target, canonical)
      case Some(i) => Some(i + 1)
      case None => None
  }

  /**
   * `resolveCurrentPositionForCompany`: none without positions; otherwise the first current
   * position at the company, falling back to the first position.
   */
  function ResolveCurrentPosition(item: Item, companyUrl: string, canonical: LinkedinCanonical): (r: Option<Position>)
    ensures var positions := item.currentPositions.GetOr([]);
      && (r.None? <==> positions == [])
      && (r.Some? ==> r.value in positions)
      && ((exists j :: 0 <= j < |positions| && Matches(positions[j], NormalizeCompanyUrl(companyUrl, canonical), canonical)) ==>
            r.Some? && Matches(r.value, NormalizeCompanyUrl(companyUrl, canonical), canonical))
      && ((forall j :: 0 <= j < |positions| ==> !Matches(positions[j], NormalizeCompanyUrl(companyUrl, canonical), canonical)) ==>
            r == if positions == [] then None else Some(positions[0]))
  {
    var positions := item.currentPositions.GetOr([]);
    if |positions| == 0 then None
    else
      var normalizedCompanyUrl := NormalizeCompanyUrl(companyUrl, canonical);
      match FirstMatch(positions, normalizedCompanyUrl, canonical)
      case Some(i) => Some(positions[i])
      case None => Some(positions[0])
  }

  /** The first matching position is the one chosen, even when a later one also matches. */
  lemma ResolveChoosesFirstMatch(item: Item, companyUrl: string, canonical: LinkedinCanonical, i: nat)
    requires var positions := item.currentPositions.GetOr([]);
      && i < |positions| && Matches(positions[i], NormalizeCompanyUrl(companyUrl, canonical), canonical)
      && forall j :: 0 <= j < i ==> !Matches(positions[j], NormalizeCompanyUrl(companyUrl, canonical), canonical)
    ensures ResolveCurrentPosition(item, companyUrl, canonical) == Some(item.currentPositions.GetOr([])[i])
  {
    var positions := item.currentPositions.GetOr([]);
    var m := FirstMatch(positions, NormalizeCompanyUrl(companyUrl, canonical), canonical);
  }

  /** The candidate a profile maps to: missing names and picture become empty, the rest come from the position. */
  function ToFiltered(item: Item, companyUrl: string, canonical: LinkedinCanonical): FilteredEmployee {
    var position := ResolveCurrentPosition(item, companyUrl, canonical);
    var startedOn := if position.Some? then position.value.startedOn else None;
    FilteredEmployee(
      item.firstName.GetOr(""),
      item.lastName.GetOr(""),
      item.pictureUrl.GetOr(""),
      if position.Some? then position.value.title else None,
      if startedOn.Some? then startedOn.value.month else None,
      if startedOn.Some? then startedOn.value.year else None)
  }

  /** The `filter` test: a start month and a start year are known. */
  predicate HasStartDate(e: FilteredEmployee) {
    e.currentStartMonth.Some? && e.currentStartYear.Some?
  }

  /** `s.filter(keep)`: the elements that pass, in their order. */
  function Filter<T>(s: seq<T>, keep: T -> bool): (r: seq<T>)
    ensures |r| <= |s|
    ensures forall k :: 0 <= k < |r| ==> keep(r[k])
  {
    if s == [] then [] else (if keep(s[0]) then [s[0]] else []) + Filter(s[1..], keep)
  }

  /** Filtering distributes over concatenation, so what passes keeps its order. */
  lemma {:induction false} FilterAppend<T>(a: seq<T>, b: seq<T>, keep: T -> bool)
    ensures Filter(a + b, keep) == Filter(a, keep) + Filter(b, keep)
  {
    if a == [] {
      assert a + b == b;
    } else {
      assert (a + b)[0] == a[0] && (a + b)[1..] == a[1..] + b;
      FilterAppend(a[1..], b, keep);
    }
  }

  /** Filtering keeps exactly the elements that pass. */
  lemma {:induction false} FilterMembers<T>(s: seq<T>, keep: T -> bool)
    ensures forall x :: x in Filter(s, keep) <==> x in s && keep(x)
  {
    if s != [] {
      FilterMembers(s[1..], keep);
      assert forall x :: x in s <==> x == s[0] || x in s[1..];
    }
  }

  /** `mapApifyEmployeesToFiltered`: each profile mapped, those without a start date dropped. */
  function MapToFiltered(items: seq<Item>, companyUrl: string, canonical: LinkedinCanonical): (r: seq<FilteredEmployee>)
  {
    Filter(Mapped(items, companyUrl, canonical), HasStartDate)
  }

  /** The `map` step: every profile turned into a candidate, in order. */
  function Mapped(items: seq<Item>, companyUrl: string, canonical: LinkedinCanonical): (r: seq<FilteredEmployee>)
    ensures |r| == |items| && forall i :: 0 <= i < |items| ==> r[i] == ToFiltered(items[i], companyUrl, canonical)
  {
    seq(|items|, i requires 0 <= i < |items| => ToFiltered(items[i], companyUrl, canonical))
  }

  /**
   * The import never lengthens the list, and its results are exactly the candidates of the
   * input profiles that have a start month and year.
   */
  lemma MapToFilteredMembers(items: seq<Item>, companyUrl: string, canonical: LinkedinCanonical)
    ensures var r := MapToFiltered(items, companyUrl, canonical);
      && |r| <= |items|
      && (forall e :: e in r <==> HasStartDate(e) && e in Mapped(items, companyUrl, canonical))
  {
    FilterMembers(Mapped(items, companyUrl, canonical), HasStartDate);
  }

  /** The import keeps input order: importing two batches together is importing each in turn. */
  lemma MapToFilteredAppend(items: seq<Item>, more: seq<Item>, companyUrl: string, canonical: LinkedinCanonical)
    ensures MapToFiltered(items + more, companyUrl, canonical) ==
      MapToFiltered(items, companyUrl, canonical) + MapToFiltered(more, companyUrl, canonical)
  {
    var mapped := Mapped(items, companyUrl, canonical);
    var mappedMore := Mapped(more, companyUrl, canonical);
    assert Mapped(items + more, companyUrl, canonical) == mapped + mappedMore;
    FilterAppend(mapped, mappedMore, HasStartDate);
  }
}
