/** The list view's filter: a case-insensitive search over title, destination
    and description, a status filter, and one of six sort orders. */
module SearchFilter {
  import opened TravelModel
  import opened Seqs
  import opened Text
  import Sorting

  /** The search test: the lower-cased term occurs in the lower-cased title,
      destination or description. */
  predicate MatchesTerm(t: Travel, term: string)
  {
    || Contains(Lower(t.title), Lower(term))
    || Contains(Lower(t.destination), Lower(term))
    || Contains(Lower(t.description), Lower(term))
  }

  function SearchTest(term: string): Travel -> bool
  {
    (t: Travel) => MatchesTerm(t, term)
  }

  function StatusTest(statusFilter: string): Travel -> bool
  {
    (t: Travel) => StatusName(t.status) == statusFilter
  }

  /** Whether a travel survives both stages. */
  predicate Keeps(t: Travel, searchTerm: string, statusFilter: string)
  {
    && (searchTerm == "" || MatchesTerm(t, searchTerm))
    && (statusFilter == "all" || StatusName(t.status) == statusFilter)
  }

  /** The search stage: skipped for an empty term. */
  function SearchStage(ts: seq<Travel>, searchTerm: string): (r: seq<Travel>)
    ensures searchTerm == "" ==> r == ts
    ensures forall t :: t in r <==> t in ts && (searchTerm == "" || MatchesTerm(t, searchTerm))
  {
    if searchTerm != "" then Filter(ts, SearchTest(searchTerm)) else ts
  }

  /** The status stage: skipped for "all". */
  function StatusStage(ts: seq<Travel>, statusFilter: string): (r: seq<Travel>)
    ensures statusFilter == "all" ==> r == ts
    ensures forall t :: t in r <==> t in ts && (statusFilter == "all" || StatusName(t.status) == statusFilter)
  {
    if statusFilter != "all" then Filter(ts, StatusTest(statusFilter)) else ts
  }

  /** Both stages, in the handler's order. */
  function Staged(ts: seq<Travel>, searchTerm: string, statusFilter: string): seq<Travel>
  {
    StatusStage(SearchStage(ts, searchTerm), statusFilter)
  }

  /** The stages keep each surviving travel as often as it occurs in the input
      and drop every other: nothing is invented or duplicated. */
  lemma StagedCounts(ts: seq<Travel>, searchTerm: string, statusFilter: string)
    ensures forall t :: multiset(Staged(ts, searchTerm, statusFilter))[t] ==
                        if Keeps(t, searchTerm, statusFilter) then multiset(ts)[t] else 0
  {
  }

  /** `localeCompare` on a text field of the two travels. */
  function ByText(key: Travel -> string): (Travel, Travel) -> int
  {
    (a: Travel, b: Travel) => Compare(key(a), key(b))
  }

  lemma ByTextConsistent(key: Travel -> string)
    ensures Sorting.ConsistentComparator(ByText(key))
  {
    var cmp := ByText(key);
    forall x, y
      ensures Sorting.MayPrecede(cmp, x, y) || Sorting.MayPrecede(cmp, y, x)
    {
      CompareAntisymmetric(key(x), key(y));
    }
    forall x, y, z | Sorting.MayPrecede(cmp, x, y) && Sorting.MayPrecede(cmp, y, z)
      ensures Sorting.MayPrecede(cmp, x, z)
    {
      CompareTransitive(key(x), key(y), key(z));
    }
  }

  const CreatedAt: Travel -> int := (t: Travel) => t.createdAt
  const StartDate: Travel -> int := (t: Travel) => t.startDate
  const Budget: Travel -> int := (t: Travel) => t.budget
  const Title: Travel -> string := (t: Travel) => t.title
  const Destination: Travel -> string := (t: Travel) => t.destination

  /** The comparator each `sortBy` value selects; there is no default branch. */
  function Comparator(sortBy: string): (Travel, Travel) -> int
    requires IsSortKey(sortBy)
  {
    match sortBy
    case "newest" => Sorting.Descending(CreatedAt)
    case "oldest" => Sorting.Ascending(CreatedAt)
    case "title" => ByText(Title)
    case "destination" => ByText(Destination)
    case "startDate" => Sorting.Ascending(StartDate)
    case "budget" => Sorting.Descending(Budget)
  }

  predicate IsSortKey(sortBy: string)
  {
    sortBy in {"newest", "oldest", "title", "destination", "startDate", "budget"}
  }

  lemma ComparatorConsistent(sortBy: string)
    requires IsSortKey(sortBy)
    ensures Sorting.ConsistentComparator(Comparator(sortBy))
  {
    match sortBy
    case "newest" => Sorting.DescendingConsistent(CreatedAt);
    case "oldest" => Sorting.AscendingConsistent(CreatedAt);
    case "title" => ByTextConsistent(Title);
    case "destination" => ByTextConsistent(Destination);
    case "startDate" => Sorting.AscendingConsistent(StartDate);
    case "budget" => Sorting.DescendingConsistent(Budget);
  }

  /** `handleFilter`: works on a copy of the list, applies both stages, then
      sorts the copy in place by the chosen key. The result holds exactly the
      travels that pass both stages, each as often as in the input, in the
      chosen order; an unknown key leaves the filtered order as it is. */
  method HandleFilter(travels: seq<Travel>, searchTerm: string, statusFilter: string, sortBy: string)
    returns (filtered: seq<Travel>)
    ensures forall t :: multiset(filtered)[t] ==
                        if Keeps(t, searchTerm, statusFilter) then multiset(travels)[t] else 0
    ensures !IsSortKey(sortBy) ==> filtered == Staged(travels, searchTerm, statusFilter)
    ensures sortBy == "newest" ==>
              forall i, j :: 0 <= i < j < |filtered| ==> filtered[i].createdAt >= filtered[j].createdAt
    ensures sortBy == "oldest" ==>
              forall i, j :: 0 <= i < j < |filtered| ==> filtered[i].createdAt <= filtered[j].createdAt
    ensures sortBy == "title" ==>
              forall i, j :: 0 <= i < j < |filtered| ==> Compare(filtered[i].title, filtered[j].title) <= 0
    ensures sortBy == "destination" ==>
              forall i, j :: 0 <= i < j < |filtered| ==> Compare(filtered[i].destination, filtered[j].destination) <= 0
    ensures sortBy == "startDate" ==>
              forall i, j :: 0 <= i < j < |filtered| ==> filtered[i].startDate <= filtered[j].startDate
    ensures sortBy == "budget" ==>
              forall i, j :: 0 <= i < j < |filtered| ==> filtered[i].budget >= filtered[j].budget
  {
    var staged := SearchStage(travels, searchTerm);
    staged := StatusStage(staged, statusFilter);
    StagedCounts(travels, searchTerm, statusFilter);
    if !IsSortKey(sortBy) {
      return staged;
    }
    filtered := SortCopy(staged, sortBy);
    SortedByKey(filtered, sortBy);
  }

  /** Copies the list into an array and sorts it in place by the comparator
      of `sortBy`: the same travels, in that comparator's order. */
  method SortCopy(staged: seq<Travel>, sortBy: string) returns (sorted: seq<Travel>)
    requires IsSortKey(sortBy)
    ensures multiset(sorted) == multiset(staged)
    ensures Sorting.SortedBy(sorted, Comparator(sortBy))
  {
    var a := new Travel[|staged|](i requires 0 <= i < |staged| => staged[i]);
    assert a[..] == staged;
    ComparatorConsistent(sortBy);
    Sorting.Sort(a, Comparator(sortBy));
    sorted := a[..];
  }

  /** What being sorted by the comparator of `sortBy` means for the key. */
  lemma SortedByKey(s: seq<Travel>, sortBy: string)
    requires IsSortKey(sortBy) && Sorting.SortedBy(s, Comparator(sortBy))
    ensures sortBy == "newest" ==> forall i, j :: 0 <= i < j < |s| ==> s[i].createdAt >= s[j].createdAt
    ensures sortBy == "oldest" ==> forall i, j :: 0 <= i < j < |s| ==> s[i].createdAt <= s[j].createdAt
    ensures sortBy == "title" ==> forall i, j :: 0 <= i < j < |s| ==> Compare(s[i].title, s[j].title) <= 0
    ensures sortBy == "destination" ==>
              forall i, j :: 0 <= i < j < |s| ==> Compare(s[i].destination, s[j].destination) <= 0
    ensures sortBy == "startDate" ==> forall i, j :: 0 <= i < j < |s| ==> s[i].startDate <= s[j].startDate
    ensures sortBy == "budget" ==> forall i, j :: 0 <= i < j < |s| ==> s[i].budget >= s[j].budget
  {
    var cmp := Comparator(sortBy);
    assert forall i, j :: 0 <= i < j < |s| ==> cmp(s[i], s[j]) <= 0;
  }
}
