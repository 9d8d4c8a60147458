/**
 * The public results list: search, category and team filters, then one
 * of five sort orders, plus the filter badge and the grade colours.
 */
module ResultsList {
  import opened Common
  import opened Entities
  import opened Text
  import Seqs

  /** The four controls of the filter panel. */
  datatype Filters = Filters(searchQuery: string, selectedCategory: string, selectedTeam: string, sortBy: string)

  /** The controls' initial values, which `clearFilters` restores. */
  const Cleared: Filters := Filters("", "all", "all", "recent")

  /** `clearFilters` */
  function ClearFilters(f: Filters): (r: Filters)
    ensures !HasActiveFilters(r) && ActiveCount(r) == 0
  {
    CountTrueFour(false, false, false, false);
    Cleared
  }

  /** `hasActiveFilters` */
  predicate HasActiveFilters(f: Filters) {
    f.searchQuery != "" || f.selectedCategory != "all" || f.selectedTeam != "all" || f.sortBy != "recent"
  }

  /** `list.filter(Boolean).length` */
  function CountTrue(bs: seq<bool>): nat {
    if bs == [] then 0 else (if bs[0] then 1 else 0) + CountTrue(bs[1..])
  }

  lemma CountTrueFour(a: bool, b: bool, c: bool, d: bool)
    ensures CountTrue([a, b, c, d]) == (if a then 1 else 0) + (if b then 1 else 0) + (if c then 1 else 0) + (if d then 1 else 0)
  {
    assert [a, b, c, d][1..] == [b, c, d];
    assert [b, c, d][1..] == [c, d];
    assert [c, d][1..] == [d];
    assert [d][1..] == [];
    assert CountTrue([d]) == (if d then 1 else 0) + CountTrue([]);
    assert CountTrue([c, d]) == (if c then 1 else 0) + CountTrue([d]);
    assert CountTrue([b, c, d]) == (if b then 1 else 0) + CountTrue([c, d]);
  }

  /** The badge number: how many of the four criteria are active. */
  function ActiveCount(f: Filters): nat {
    CountTrue([f.searchQuery != "", f.selectedCategory != "all", f.selectedTeam != "all", f.sortBy != "recent"])
  }

  /** The badge shows exactly when some criterion is active, and the cleared controls are the only inactive ones. */
  lemma ActiveCountMeaning(f: Filters)
    ensures ActiveCount(f) <= 4
    ensures HasActiveFilters(f) <==> ActiveCount(f) > 0
    ensures ActiveCount(f) == 0 <==> f == Cleared
  {
    CountTrueFour(f.searchQuery != "", f.selectedCategory != "all", f.selectedTeam != "all", f.sortBy != "recent");
  }

  /** The colour of every known grade; anything else falls back. */
  const GradeColors: map<string, string> := map[
    "A+" := "#10b981", "A" := "#22c55e", "B+" := "#84cc16", "B" := "#eab308",
    "C" := "#f59e0b", "D" := "#f97316", "E" := "#ef4444"]

  const FallbackColor: string := "#94a3b8"

  /** `getGradeColor` */
  function GradeColor(grade: string): (c: string)
    ensures grade in Grades ==> c == GradeColors[grade]
    ensures grade !in Grades ==> c == FallbackColor
  {
    if grade in GradeColors then GradeColors[grade] else FallbackColor
  }

  /** Each grade has its own colour, and none of them is the fallback. */
  lemma GradeColorsDistinct(g1: string, g2: string)
    requires g1 in Grades && g2 in Grades && g1 != g2
    ensures GradeColor(g1) != GradeColor(g2)
    ensures GradeColor(g1) != FallbackColor
  {
  }

  /** The search test on one result, for an already-lowercased query. */
  predicate MatchesQuery(r: Result, query: string, participants: seq<Participant>, programs: seq<Program>) {
    var participant := FindParticipant(participants, r.participantId);
    var program := FindProgram(programs, r.programId);
    || (participant.Some? && Contains(Lower(participant.value.name), query))
    || (program.Some? && Contains(Lower(program.value.name), query))
    || Contains(Lower(r.grade), query)
    || (participant.Some? && Contains(Lower(participant.value.category), query))
  }

  /** The category test: the result's program is known and has that category. */
  predicate InCategory(r: Result, category: string, programs: seq<Program>) {
    var program := FindProgram(programs, r.programId);
    program.Some? && program.value.category == category
  }

  /** The search criterion: no query, or the lowercased query matches. */
  predicate PassesSearch(r: Result, f: Filters, participants: seq<Participant>, programs: seq<Program>) {
    f.searchQuery == "" || MatchesQuery(r, Lower(f.searchQuery), participants, programs)
  }

  /** The category criterion: 'all', or the result's program has that category. */
  predicate PassesCategory(r: Result, f: Filters, programs: seq<Program>) {
    f.selectedCategory == "all" || InCategory(r, f.selectedCategory, programs)
  }

  /** The team criterion: 'all', or the result belongs to that team. */
  predicate PassesTeam(r: Result, f: Filters) {
    f.selectedTeam == "all" || r.teamId == f.selectedTeam
  }

  /** Whether a result survives all three filters. */
  predicate Kept(r: Result, f: Filters, participants: seq<Participant>, programs: seq<Program>) {
    PassesSearch(r, f, participants, programs) && PassesCategory(r, f, programs) && PassesTeam(r, f)
  }

  /** The results the filters keep, in their stored order. */
  function KeptResults(results: seq<Result>, f: Filters, participants: seq<Participant>, programs: seq<Program>): seq<Result> {
    Seqs.Filter(results, (r: Result) => Kept(r, f, participants, programs))
  }

  /** The comparator passed to `sort`: negative keeps a before b, positive puts b first. */
  function Compare(sortBy: string, a: Result, b: Result): int {
    if sortBy == "recent" then b.timestamp - a.timestamp
    else if sortBy == "oldest" then a.timestamp - b.timestamp
    else if sortBy == "points-high" then b.points - a.points
    else if sortBy == "points-low" then a.points - b.points
    else if sortBy == "grade" then StrCompare(a.grade, b.grade)
    else 0
  }

  lemma CompareAntisymmetric(sortBy: string, a: Result, b: Result)
    ensures Compare(sortBy, a, b) == -Compare(sortBy, b, a)
  {
    StrCompareAntisymmetric(a.grade, b.grade);
  }

  lemma CompareTransitive(sortBy: string, a: Result, b: Result, c: Result)
    requires Compare(sortBy, a, b) <= 0 && Compare(sortBy, b, c) <= 0
    ensures Compare(sortBy, a, c) <= 0
  {
    if sortBy == "grade" {
      StrCompareTransitive(a.grade, b.grade, c.grade);
    }
  }

  /** Every earlier element may stay before every later one. */
  ghost predicate SortedBy(s: seq<Result>, sortBy: string) {
    forall k, l :: 0 <= k < l < |s| ==> Compare(sortBy, s[k], s[l]) <= 0
  }

  /** No neighbour pair is out of order. */
  ghost predicate AdjacentSorted(s: seq<Result>, sortBy: string) {
    forall k :: 0 < k < |s| ==> Compare(sortBy, s[k - 1], s[k]) <= 0
  }

  /** What each of the named orders means for the fields. */
  lemma SortedMeaning(s: seq<Result>, sortBy: string)
    requires SortedBy(s, sortBy)
    ensures sortBy == "recent" ==> forall k, l :: 0 <= k < l < |s| ==> s[k].timestamp >= s[l].timestamp
    ensures sortBy == "oldest" ==> forall k, l :: 0 <= k < l < |s| ==> s[k].timestamp <= s[l].timestamp
    ensures sortBy == "points-high" ==> forall k, l :: 0 <= k < l < |s| ==> s[k].points >= s[l].points
    ensures sortBy == "points-low" ==> forall k, l :: 0 <= k < l < |s| ==> s[k].points <= s[l].points
    ensures sortBy == "grade" ==> forall k, l :: 0 <= k < l < |s| ==> StrCompare(s[k].grade, s[l].grade) <= 0
  {
  }

  /** Under any other sort key the comparator is 0, so every order is already in order. */
  lemma UnknownSortKeepsOrder(s: seq<Result>, sortBy: string)
    requires sortBy !in ["recent", "oldest", "points-high", "points-low", "grade"]
    ensures AdjacentSorted(s, sortBy)
  {
  }

  /** Exchange two neighbouring elements. */
  method SwapDown(a: array<Result>, j: nat)
    requires 0 < j < a.Length
    modifies a
    ensures a[j - 1] == old(a[j]) && a[j] == old(a[j - 1])
    ensures forall k :: 0 <= k < a.Length && k != j - 1 && k != j ==> a[k] == old(a[k])
    ensures multiset(a[..]) == multiset(old(a[..]))
  {
    a[j - 1], a[j] := a[j], a[j - 1];
  }

  /** One pass of insertion: sink a[i] into the ordered prefix a[..i]. */
  method Insert(a: array<Result>, i: nat, sortBy: string)
    requires i < a.Length
    requires forall k, l :: 0 <= k < l < i ==> Compare(sortBy, a[k], a[l]) <= 0
    modifies a
    ensures forall k, l :: 0 <= k < l <= i ==> Compare(sortBy, a[k], a[l]) <= 0
    ensures forall k :: i < k < a.Length ==> a[k] == old(a[k])
    ensures multiset(a[..]) == multiset(old(a[..]))
    ensures (i == 0 || Compare(sortBy, old(a[i - 1]), old(a[i])) <= 0) ==> a[..] == old(a[..])
  {
    var j := i;
    while j > 0 && Compare(sortBy, a[j - 1], a[j]) > 0
      invariant 0 <= j <= i
      invariant forall k, l :: 0 <= k < l <= i && k != j && l != j ==> Compare(sortBy, a[k], a[l]) <= 0
      invariant forall l :: j < l <= i ==> Compare(sortBy, a[l], a[j]) > 0
      invariant forall k :: i < k < a.Length ==> a[k] == old(a[k])
      invariant multiset(a[..]) == multiset(old(a[..]))
      invariant j == i ==> a[..] == old(a[..])
      invariant (i == 0 || Compare(sortBy, old(a[i - 1]), old(a[i])) <= 0) ==> j == i
    {
      SwapDown(a, j);
      j := j - 1;
    }
    forall k, l | 0 <= k < l <= i ensures Compare(sortBy, a[k], a[l]) <= 0 {
      if l == j && k < j - 1 {
        CompareTransitive(sortBy, a[k], a[j - 1], a[j]);
      } else if k == j {
        CompareAntisymmetric(sortBy, a[l], a[j]);
      }
    }
  }

  /** `Array.prototype.sort` on the copy: a stable insertion sort by the comparator. */
  method SortInPlace(a: array<Result>, sortBy: string)
    modifies a
    ensures SortedBy(a[..], sortBy)
    ensures multiset(a[..]) == multiset(old(a[..]))
    ensures AdjacentSorted(old(a[..]), sortBy) ==> a[..] == old(a[..])
  {
    for i := 0 to a.Length
      invariant forall k, l :: 0 <= k < l < i ==> Compare(sortBy, a[k], a[l]) <= 0
      invariant multiset(a[..]) == multiset(old(a[..]))
      invariant AdjacentSorted(old(a[..]), sortBy) ==> a[..] == old(a[..])
    {
      Insert(a, i, sortBy);
    }
  }

  /** The search stage: skipped for an empty query. */
  function SearchStage(rs: seq<Result>, f: Filters, participants: seq<Participant>, programs: seq<Program>): seq<Result> {
    if f.searchQuery == "" then rs
    else
      var query := Lower(f.searchQuery);
      Seqs.Filter(rs, (r: Result) => MatchesQuery(r, query, participants, programs))
  }

  /** The category stage: skipped for 'all'. */
  function CategoryStage(rs: seq<Result>, f: Filters, programs: seq<Program>): seq<Result> {
    if f.selectedCategory == "all" then rs
    else Seqs.Filter(rs, (r: Result) => InCategory(r, f.selectedCategory, programs))
  }

  /** The team stage: skipped for 'all'. */
  function TeamStage(rs: seq<Result>, f: Filters): seq<Result> {
    if f.selectedTeam == "all" then rs
    else Seqs.Filter(rs, (r: Result) => r.teamId == f.selectedTeam)
  }

  /** The search stage keeps the results that pass the search criterion. */
  lemma SearchStageKeeps(results: seq<Result>, f: Filters, participants: seq<Participant>, programs: seq<Program>)
    ensures SearchStage(results, f, participants, programs)
         == Seqs.Filter(results, (r: Result) => PassesSearch(r, f, participants, programs))
  {
    var bySearch := (r: Result) => PassesSearch(r, f, participants, programs);
    if f.searchQuery == "" {
      Seqs.FilterKeepsAll(results, bySearch);
    } else {
      var query := Lower(f.searchQuery);
      var matches := (r: Result) => MatchesQuery(r, query, participants, programs);
      Seqs.FilterCompose(results, matches, (r: Result) => true, bySearch);
      Seqs.FilterKeepsAll(Seqs.Filter(results, matches), (r: Result) => true);
    }
  }

  /** Adding the category stage keeps the results that pass both criteria. */
  lemma CategoryStageKeeps(results: seq<Result>, f: Filters, participants: seq<Participant>, programs: seq<Program>)
    ensures CategoryStage(SearchStage(results, f, participants, programs), f, programs)
         == Seqs.Filter(results, (r: Result) => PassesSearch(r, f, participants, programs) && PassesCategory(r, f, programs))
  {
    var bySearch := (r: Result) => PassesSearch(r, f, participants, programs);
    var byCategory := (r: Result) => PassesCategory(r, f, programs);
    var both := (r: Result) => PassesSearch(r, f, participants, programs) && PassesCategory(r, f, programs);
    SearchStageKeeps(results, f, participants, programs);
    var s1 := Seqs.Filter(results, bySearch);
    if f.selectedCategory == "all" {
      Seqs.FilterKeepsAll(s1, byCategory);
      Seqs.FilterCompose(results, bySearch, byCategory, both);
    } else {
      Seqs.FilterCompose(results, bySearch, (r: Result) => InCategory(r, f.selectedCategory, programs), both);
    }
  }

  /** The three stages one after the other keep exactly the results that pass all three criteria. */
  lemma StagesKeep(results: seq<Result>, f: Filters, participants: seq<Participant>, programs: seq<Program>)
    ensures TeamStage(CategoryStage(SearchStage(results, f, participants, programs), f, programs), f)
         == KeptResults(results, f, participants, programs)
  {
    var upToCategory := (r: Result) => PassesSearch(r, f, participants, programs) && PassesCategory(r, f, programs);
    var byTeam := (r: Result) => PassesTeam(r, f);
    var all := (r: Result) => Kept(r, f, participants, programs);
    CategoryStageKeeps(results, f, participants, programs);
    var s2 := Seqs.Filter(results, upToCategory);
    if f.selectedTeam == "all" {
      Seqs.FilterKeepsAll(s2, byTeam);
      Seqs.FilterCompose(results, upToCategory, byTeam, all);
    } else {
      Seqs.FilterCompose(results, upToCategory, (r: Result) => r.teamId == f.selectedTeam, all);
    }
  }

  /** `filteredAndSortedResults` */
  method FilteredAndSorted(results: seq<Result>, f: Filters, participants: seq<Participant>, programs: seq<Program>)
    returns (out: seq<Result>)
    ensures multiset(out) == multiset(KeptResults(results, f, participants, programs))
    ensures SortedBy(out, f.sortBy)
    ensures AdjacentSorted(KeptResults(results, f, participants, programs), f.sortBy)
        ==> out == KeptResults(results, f, participants, programs)
  {
    var filtered := results;
    filtered := SearchStage(filtered, f, participants, programs);
    filtered := CategoryStage(filtered, f, programs);
    filtered := TeamStage(filtered, f);
    StagesKeep(results, f, participants, programs);

    var copy := new Result[|filtered|](i requires 0 <= i < |filtered| => filtered[i]);
    assert copy[..] == filtered;
    SortInPlace(copy, f.sortBy);
    out := copy[..];
  }

  /** The kept results are the input results that pass every filter, each with its multiplicity. */
  lemma KeptCount(results: seq<Result>, f: Filters, participants: seq<Participant>, programs: seq<Program>, x: Result)
    ensures multiset(KeptResults(results, f, participants, programs))[x]
         == if Kept(x, f, participants, programs) then multiset(results)[x] else 0
  {
    Seqs.FilterCount(results, (r: Result) => Kept(r, f, participants, programs), x);
  }

  /** The list never holds a record the store does not, and never more copies of it. */
  lemma KeptFromResults(results: seq<Result>, f: Filters, participants: seq<Participant>, programs: seq<Program>)
    ensures multiset(KeptResults(results, f, participants, programs)) <= multiset(results)
    ensures Seqs.Subsequence(KeptResults(results, f, participants, programs), results)
  {
    Seqs.FilterSubMultiset(results, (r: Result) => Kept(r, f, participants, programs));
    Seqs.FilterIsSubsequence(results, (r: Result) => Kept(r, f, participants, programs));
  }

  /** What every kept result satisfies. */
  lemma KeptMeaning(results: seq<Result>, f: Filters, participants: seq<Participant>, programs: seq<Program>, x: Result)
    requires x in KeptResults(results, f, participants, programs)
    ensures x in results
    ensures f.searchQuery != "" ==> MatchesQuery(x, Lower(f.searchQuery), participants, programs)
    ensures f.selectedCategory != "all" ==>
      exists p :: p in programs && p.id == x.programId && p.category == f.selectedCategory
    ensures f.selectedTeam != "all" ==> x.teamId == f.selectedTeam
  {
    if f.selectedCategory != "all" {
      var p := FindProgram(programs, x.programId);
      assert p.Some? && p.value in programs;
    }
  }

  /** With no criterion set, every result is kept. */
  lemma NoFilterKeepsAll(results: seq<Result>, f: Filters, participants: seq<Participant>, programs: seq<Program>)
    requires f.searchQuery == "" && f.selectedCategory == "all" && f.selectedTeam == "all"
    ensures KeptResults(results, f, participants, programs) == results
  {
    Seqs.FilterKeepsAll(results, (r: Result) => Kept(r, f, participants, programs));
  }
}
