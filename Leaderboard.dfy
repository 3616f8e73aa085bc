/**
 * The leaderboard page of `components/pages/Leaderboard.tsx`: the
 * aggregation of volunteers into university totals and its ranking, the
 * volunteer ranking with its filter chips, name search and pages of ten,
 * rank lookup, and the paging controls.
 */
module Leaderboard {
  import opened Types
  import Js
  import StableSort

  datatype UniversityStats = UniversityStats(name: string, totalPoints: int, totalHours: int, count: int)

  // ---------------------------------------------------------------------------
  // Aggregation by university

  /** `if (v.university)`: the university is present and not empty. */
  predicate Counted(v: Volunteer) {
    v.university.Some? && v.university.value != ""
  }

  /** `v` is counted under the university `name`. */
  predicate Member(v: Volunteer, name: string) {
    Counted(v) && v.university.value == name
  }

  function VPoints(v: Volunteer): int { v.points }
  function VHours(v: Volunteer): int { v.hours }
  function VOne(v: Volunteer): int { 1 }
  function TotalPoints(u: UniversityStats): int { u.totalPoints }

  /** The university names in the order they first appear: the insertion
      order of the `Map`. */
  function Names(vs: seq<Volunteer>): (r: seq<string>)
    ensures forall i, j :: 0 <= i < j < |r| ==> r[i] != r[j]
  {
    if vs == [] then []
    else
      var init, v := vs[..|vs| - 1], vs[|vs| - 1];
      var before := Names(init);
      if Counted(v) && v.university.value !in before then before + [v.university.value] else before
  }

  /** The names are exactly the universities of the counted volunteers. */
  lemma {:induction false} NamesMembers(vs: seq<Volunteer>)
    ensures forall n :: n in Names(vs) <==> exists k :: 0 <= k < |vs| && Member(vs[k], n)
  {
    if vs != [] {
      var init, v := vs[..|vs| - 1], vs[|vs| - 1];
      NamesMembers(init);
      assert forall k :: 0 <= k < |init| ==> vs[k] == init[k];
    }
  }

  /** The sum of `f` over the members of university `name`. */
  function SumOf(vs: seq<Volunteer>, name: string, f: Volunteer -> int): int {
    if vs == [] then 0
    else
      var v := vs[|vs| - 1];
      SumOf(vs[..|vs| - 1], name, f) + (if Member(v, name) then f(v) else 0)
  }

  /** The sum of `f` over every counted volunteer. */
  function CountedSum(vs: seq<Volunteer>, f: Volunteer -> int): int {
    if vs == [] then 0
    else
      var v := vs[|vs| - 1];
      CountedSum(vs[..|vs| - 1], f) + (if Counted(v) then f(v) else 0)
  }

  /** The totals of one university. */
  function StatsOf(vs: seq<Volunteer>, name: string): UniversityStats {
    UniversityStats(name, SumOf(vs, name, VPoints), SumOf(vs, name, VHours), SumOf(vs, name, VOne))
  }

  function StatsList(names: seq<string>, vs: seq<Volunteer>): (r: seq<UniversityStats>)
    ensures |r| == |names|
    ensures forall k :: 0 <= k < |r| ==> r[k] == StatsOf(vs, names[k])
  {
    if names == [] then [] else [StatsOf(vs, names[0])] + StatsList(names[1..], vs)
  }

  /** The entries of the `Map` after the `forEach`, in insertion order. */
  function Aggregate(vs: seq<Volunteer>): seq<UniversityStats> {
    StatsList(Names(vs), vs)
  }

  /** The comparator as written: the two tie-break terms subtract a field
      from itself. */
  function UniversityCompare(a: UniversityStats, b: UniversityStats): int {
    Js.Or(b.totalPoints - a.totalPoints, Js.Or(b.totalHours - b.totalHours, b.count - b.count))
  }

  predicate UniversityLt(a: UniversityStats, b: UniversityStats) {
    UniversityCompare(a, b) < 0
  }

  /** One more volunteer adds its university to the names if it is counted
      and new. */
  lemma NamesSnoc(vs: seq<Volunteer>, v: Volunteer)
    ensures Names(vs + [v]) ==
      if Counted(v) && v.university.value !in Names(vs) then Names(vs) + [v.university.value] else Names(vs)
  {
    assert (vs + [v])[..|vs|] == vs;
  }

  /** One more volunteer adds its figures to its own university's totals
      and changes no other. */
  lemma StatsSnoc(vs: seq<Volunteer>, v: Volunteer, n: string)
    ensures StatsOf(vs + [v], n) == if Member(v, n) then Added(StatsOf(vs, n), v) else StatsOf(vs, n)
  {
    assert (vs + [v])[..|vs|] == vs;
  }

  /** One more member's figures added to a university's totals. */
  function Added(s: UniversityStats, v: Volunteer): UniversityStats {
    s.(totalPoints := s.totalPoints + v.points, totalHours := s.totalHours + v.hours, count := s.count + 1)
  }

  /** `aggregateUniversityData`: one pass over the volunteers that updates
      the entry of each one's university, then a sort of the entries. */
  method AggregateUniversityData(vs: seq<Volunteer>) returns (r: seq<UniversityStats>)
    ensures r == StableSort.Sort(Aggregate(vs), UniversityLt)
  {
    var stats, order := CollectStats(vs);
    var entries: seq<UniversityStats> := [];
    var j := 0;
    while j < |order|
      invariant 0 <= j <= |order|
      invariant entries == StatsList(order[..j], vs)
    {
      assert order[..j + 1] == order[..j] + [order[j]];
      StatsListAppend(order[..j], order[j], vs);
      entries := entries + [stats[order[j]]];
      j := j + 1;
    }
    assert order[..|order|] == order;
    r := StableSort.Sort(entries, UniversityLt);
  }

  /** The `Map` holds the totals of exactly the universities of `vs`, and
      `order` is its insertion order. */
  ghost predicate Collected(vs: seq<Volunteer>, stats: map<string, UniversityStats>, order: seq<string>) {
    && order == Names(vs)
    && (forall n :: n in stats <==> n in order)
    && (forall n :: n in stats ==> stats[n] == StatsOf(vs, n))
  }

  /** The `forEach` that fills the `Map`; `order` is its insertion order. */
  method CollectStats(vs: seq<Volunteer>) returns (stats: map<string, UniversityStats>, order: seq<string>)
    ensures order == Names(vs)
    ensures forall n :: n in stats <==> n in order
    ensures forall n :: n in stats ==> stats[n] == StatsOf(vs, n)
  {
    stats, order := map[], [];
    var i := 0;
    while i < |vs|
      invariant 0 <= i <= |vs|
      invariant Collected(vs[..i], stats, order)
    {
      var v := vs[i];
      assert vs[..i + 1] == vs[..i] + [v];
      if v.university.Some? && v.university.value != "" {
        var u := v.university.value;
        var s := if u in stats then stats[u] else UniversityStats(u, 0, 0, 0);
        if u in stats {
          CollectExisting(vs[..i], v, stats, order);
        } else {
          CollectNew(vs[..i], v, stats, order);
        }
        s := s.(totalPoints := s.totalPoints + v.points, totalHours := s.totalHours + v.hours, count := s.count + 1);
        assert s == Added(if u in stats then stats[u] else UniversityStats(u, 0, 0, 0), v);
        if u !in stats {
          order := order + [u];
        }
        stats := stats[u := s];
      } else {
        CollectSkipped(vs[..i], v, stats, order);
      }
      i := i + 1;
    }
    assert vs[..|vs|] == vs;
  }

  /** A volunteer without a university changes nothing. */
  lemma CollectSkipped(vs: seq<Volunteer>, v: Volunteer, stats: map<string, UniversityStats>, order: seq<string>)
    requires Collected(vs, stats, order) && !Counted(v)
    ensures Collected(vs + [v], stats, order)
  {
    NamesSnoc(vs, v);
    forall n | n in stats ensures stats[n] == StatsOf(vs + [v], n) {
      StatsSnoc(vs, v, n);
    }
  }

  /** A counted volunteer of a university already in the `Map` adds its
      figures to that entry. */
  lemma CollectExisting(vs: seq<Volunteer>, v: Volunteer, stats: map<string, UniversityStats>, order: seq<string>)
    requires Collected(vs, stats, order) && Counted(v) && v.university.value in stats
    ensures Collected(vs + [v], stats[v.university.value := Added(stats[v.university.value], v)], order)
  {
    var u := v.university.value;
    var stats' := stats[u := Added(stats[u], v)];
    NamesSnoc(vs, v);
    forall n | n in stats' ensures stats'[n] == StatsOf(vs + [v], n) {
      StatsSnoc(vs, v, n);
    }
  }

  /** A counted volunteer of a university not yet in the `Map` creates its
      entry, at the end of the order. */
  lemma CollectNew(vs: seq<Volunteer>, v: Volunteer, stats: map<string, UniversityStats>, order: seq<string>)
    requires Collected(vs, stats, order) && Counted(v) && v.university.value !in stats
    ensures var u := v.university.value;
      Collected(vs + [v], stats[u := Added(UniversityStats(u, 0, 0, 0), v)], order + [u])
  {
    var u := v.university.value;
    var stats' := stats[u := Added(UniversityStats(u, 0, 0, 0), v)];
    NamesSnoc(vs, v);
    NoMemberSumZero(vs, u, VPoints);
    NoMemberSumZero(vs, u, VHours);
    NoMemberSumZero(vs, u, VOne);
    StatsSnoc(vs, v, u);
    forall n | n in stats' ensures stats'[n] == StatsOf(vs + [v], n) {
      StatsSnoc(vs, v, n);
    }
  }

  lemma {:induction false} NoMemberSumZero(vs: seq<Volunteer>, name: string, f: Volunteer -> int)
    requires name !in Names(vs)
    ensures SumOf(vs, name, f) == 0
  {
    if vs != [] {
      var init := vs[..|vs| - 1];
      assert forall k :: 0 <= k < |init| ==> init[k] == vs[k];
      NoMemberSumZero(init, name, f);
    }
  }

  lemma {:induction false} StatsListAppend(names: seq<string>, n: string, vs: seq<Volunteer>)
    ensures StatsList(names + [n], vs) == StatsList(names, vs) + [StatsOf(vs, n)]
  {
  }

  // ---------------------------------------------------------------------------
  // Conservation

  /** Adding one volunteer adds its points to the total over any distinct
      names that include its university, and nothing otherwise. */
  lemma {:induction false} PointsStep(names: seq<string>, vs: seq<Volunteer>, v: Volunteer)
    requires forall i, j :: 0 <= i < j < |names| ==> names[i] != names[j]
    ensures StableSort.Sum(StatsList(names, vs + [v]), TotalPoints)
      == StableSort.Sum(StatsList(names, vs), TotalPoints)
         + (if Counted(v) && v.university.value in names then v.points else 0)
  {
    var vs' := vs + [v];
    assert vs'[..|vs'| - 1] == vs;
    if names != [] {
      var t := names[1..];
      assert forall i, j :: 0 <= i < j < |t| ==> t[i] != t[j] by {
        forall i, j | 0 <= i < j < |t| ensures t[i] != t[j] {
          assert t[i] == names[i + 1] && t[j] == names[j + 1];
        }
      }
      PointsStep(t, vs, v);
      assert Counted(v) && v.university.value == names[0] ==> v.university.value !in t;
      assert Counted(v) && v.university.value in names && v.university.value != names[0] ==>
        v.university.value in t;
    }
  }

  /** The sum of `totalPoints` over the aggregation is the sum of points of
      the volunteers whose university is present and not empty. */
  lemma {:induction false} AggregateConservesPoints(vs: seq<Volunteer>)
    ensures StableSort.Sum(Aggregate(vs), TotalPoints) == CountedSum(vs, VPoints)
  {
    if vs != [] {
      var init, v := vs[..|vs| - 1], vs[|vs| - 1];
      assert vs == init + [v];
      AggregateConservesPoints(init);
      var before := Names(init);
      var gain := if Counted(v) then v.points else 0;
      assert CountedSum(vs, VPoints) == CountedSum(init, VPoints) + gain;
      NamesSnoc(init, v);
      PointsStep(before, init, v);
      var prev := StableSort.Sum(StatsList(before, vs), TotalPoints);
      if Counted(v) && v.university.value !in before {
        var u := v.university.value;
        assert prev == StableSort.Sum(Aggregate(init), TotalPoints);
        StatsListAppend(before, u, vs);
        StableSort.SumConcat(StatsList(before, vs), [StatsOf(vs, u)], TotalPoints);
        NoMemberSumZero(init, u, VPoints);
        assert StableSort.Sum([StatsOf(vs, u)], TotalPoints) == SumOf(vs, u, VPoints) == v.points;
      } else {
        assert Aggregate(vs) == StatsList(before, vs);
        assert prev == StableSort.Sum(Aggregate(init), TotalPoints) + gain;
      }
    }
  }

  /** The ranked universities carry the same total: sorting moves entries,
      it does not add or drop points. */
  lemma UniversityRankingConservesPoints(vs: seq<Volunteer>)
    ensures StableSort.Sum(StableSort.Sort(Aggregate(vs), UniversityLt), TotalPoints) == CountedSum(vs, VPoints)
  {
    AggregateConservesPoints(vs);
    StableSort.SortSum(Aggregate(vs), UniversityLt, TotalPoints);
  }

  function StatsName(u: UniversityStats): string { u.name }

  /** Every university appears once in the ranking. */
  lemma UniversityNamesUnique(vs: seq<Volunteer>)
    ensures Js.UniqueKeys(StableSort.Sort(Aggregate(vs), UniversityLt), StatsName)
  {
    var a := Aggregate(vs);
    assert Js.UniqueKeys(a, StatsName) by {
      forall i, j | 0 <= i < j < |a| ensures StatsName(a[i]) != StatsName(a[j]) {
        assert a[i].name == Names(vs)[i] && a[j].name == Names(vs)[j];
      }
    }
    Js.UniqueKeysPermutation(a, StableSort.Sort(a, UniversityLt), StatsName);
  }

  // ---------------------------------------------------------------------------
  // The university order as written

  /** The tie-break terms are always 0: the comparator is `totalPoints`
      descending and nothing else. */
  lemma UniversityCompareIsPointsOnly(a: UniversityStats, b: UniversityStats)
    ensures UniversityCompare(a, b) == b.totalPoints - a.totalPoints
    ensures UniversityLt(a, b) <==> a.totalPoints > b.totalPoints
    ensures StableSort.Tie(UniversityLt, a, b) <==> a.totalPoints == b.totalPoints
  {
  }

  lemma UniversityLtIsStrictWeakOrder()
    ensures StableSort.StrictWeakOrder(UniversityLt)
  {
  }

  /** The ranking lists universities by `totalPoints` descending; those tied
      on points keep the order in which they first appear among the
      volunteers, whatever their hours and member counts. */
  lemma UniversityRanking(vs: seq<Volunteer>, k: UniversityStats)
    ensures var r := StableSort.Sort(Aggregate(vs), UniversityLt);
      && (forall i, j :: 0 <= i < j < |r| ==> r[i].totalPoints >= r[j].totalPoints)
      && StableSort.Tied(r, UniversityLt, k) == StableSort.Tied(Aggregate(vs), UniversityLt, k)
  {
    UniversityLtIsStrictWeakOrder();
    StableSort.SortSorted(Aggregate(vs), UniversityLt);
    StableSort.SortStable(Aggregate(vs), UniversityLt, k);
  }

  /** Example: two volunteers of two universities aggregate to one entry
      each, in order of first appearance. */
  lemma TwoUniversities(a: Volunteer, b: Volunteer)
    requires a.university == Some("U1") && b.university == Some("U2")
    ensures Aggregate([a, b])
      == [UniversityStats("U1", a.points, a.hours, 1), UniversityStats("U2", b.points, b.hours, 1)]
  {
    TwoNames(a, b);
    MemberStats(a, b, "U1");
    MemberStats(b, a, "U2");
  }

  /** Two volunteers of different universities name both, in order. */
  lemma TwoNames(a: Volunteer, b: Volunteer)
    requires Counted(a) && Counted(b) && a.university.value != b.university.value
    ensures Names([a, b]) == [a.university.value, b.university.value]
  {
    var u, w := a.university.value, b.university.value;
    assert [a][..0] == [];
    assert Names([a]) == [u];
    assert [a, b][..1] == [a];
    assert Names([a, b]) == [u] + [w];
  }

  /** With one member among two volunteers, a university's totals are that
      member's figures. */
  lemma MemberStats(a: Volunteer, b: Volunteer, u: string)
    requires Member(a, u) && !Member(b, u)
    ensures StatsOf([a, b], u) == UniversityStats(u, a.points, a.hours, 1)
      && StatsOf([b, a], u) == UniversityStats(u, a.points, a.hours, 1)
  {
    var none: seq<Volunteer> := [];
    assert [a] == none + [a] && [a, b] == [a] + [b];
    assert [b] == none + [b] && [b, a] == [b] + [a];
    StatsSnoc(none, a, u);
    StatsSnoc([a], b, u);
    StatsSnoc(none, b, u);
    StatsSnoc([b], a, u);
  }

  /** Two universities with equal points where the second has more hours:
      the ranking keeps the first one first, unlike an order that breaks ties
      on hours and then on member count. */
  lemma UniversityTieIgnoresHours(a: Volunteer, b: Volunteer)
    requires a.university == Some("U1") && b.university == Some("U2")
    requires a.points == 10 && a.hours == 1 && b.points == 10 && b.hours == 5
    ensures StableSort.Sort(Aggregate([a, b]), UniversityLt)
      == [UniversityStats("U1", 10, 1, 1), UniversityStats("U2", 10, 5, 1)]
  {
    var s1 := UniversityStats("U1", 10, 1, 1);
    var s2 := UniversityStats("U2", 10, 5, 1);
    TwoUniversities(a, b);
    assert [s1, s2][..1] == [s1];
    assert StableSort.Sort([s1], UniversityLt) == [s1];
    assert !UniversityLt(s2, s1);
    assert StableSort.Insert(s2, [s1], UniversityLt) == [s1, s2];
  }

  // ---------------------------------------------------------------------------
  // Volunteer ranking

  /** The volunteer comparator: points descending, then hours descending,
      then `fullName` ascending. */
  function VolunteerCompare(a: Volunteer, b: Volunteer): int {
    Js.Or(b.points - a.points, Js.Or(b.hours - a.hours, Js.LocaleCompare(a.fullName, b.fullName)))
  }

  predicate VolunteerLt(a: Volunteer, b: Volunteer) {
    VolunteerCompare(a, b) < 0
  }

  lemma VolunteerOrder(a: Volunteer, b: Volunteer)
    ensures VolunteerLt(a, b) <==>
      || a.points > b.points
      || (a.points == b.points && a.hours > b.hours)
      || (a.points == b.points && a.hours == b.hours && Js.StrLt(a.fullName, b.fullName))
  {
  }

  lemma VolunteerLtIsStrictWeakOrder()
    ensures StableSort.StrictWeakOrder(VolunteerLt)
  {
    forall a: Volunteer ensures !VolunteerLt(a, a) {
      Js.StrLtIrreflexive(a.fullName);
    }
    forall a: Volunteer, b: Volunteer, c: Volunteer | VolunteerLt(a, b) && VolunteerLt(b, c)
      ensures VolunteerLt(a, c)
    {
      if a.points == b.points == c.points && a.hours == b.hours == c.hours {
        Js.StrLtTransitive(a.fullName, b.fullName, c.fullName);
      }
    }
    forall a: Volunteer, b: Volunteer, c: Volunteer | VolunteerLt(a, c)
      ensures VolunteerLt(a, b) || VolunteerLt(b, c)
    {
      if a.points == b.points == c.points && a.hours == b.hours == c.hours {
        Js.StrLtTotal(a.fullName, b.fullName);
        Js.StrLtTotal(b.fullName, c.fullName);
        if !Js.StrLt(a.fullName, b.fullName) && !Js.StrLt(b.fullName, c.fullName) {
          if a.fullName != b.fullName {
            Js.StrLtTransitive(b.fullName, a.fullName, c.fullName);
          }
        }
      }
    }
  }

  /** `[...volunteers].sort(...)` */
  function SortedVolunteers(vs: seq<Volunteer>): seq<Volunteer> {
    StableSort.Sort(vs, VolunteerLt)
  }

  /** The ranking is a rearrangement of the volunteers in comparator order;
      volunteers equal on points, hours and name keep their input order. */
  lemma VolunteerRanking(vs: seq<Volunteer>, k: Volunteer)
    ensures var r := SortedVolunteers(vs);
      && multiset(r) == multiset(vs)
      && StableSort.Sorted(r, VolunteerLt)
      && StableSort.Tied(r, VolunteerLt, k) == StableSort.Tied(vs, VolunteerLt, k)
  {
    VolunteerLtIsStrictWeakOrder();
    StableSort.SortSorted(vs, VolunteerLt);
    StableSort.SortStable(vs, VolunteerLt, k);
  }

  /** Example: of three volunteers, 150 points comes first, then the two
      with 100 points and 20 hours by name. */
  lemma VolunteerRankingExample(b: Volunteer, a: Volunteer, c: Volunteer)
    requires b.points == 100 && b.hours == 20 && b.fullName == "B"
    requires a.points == 100 && a.hours == 20 && a.fullName == "A"
    requires c.points == 150 && c.hours == 5 && c.fullName == "C"
    ensures SortedVolunteers([b, a, c]) == [c, a, b]
  {
    assert [b, a, c][..2] == [b, a];
    assert [b, a][..1] == [b];
    assert [b][..0] == [];
    assert Js.StrLt("A", "B");
    assert VolunteerLt(a, b);
    assert StableSort.Sort([b, a], VolunteerLt) == [a, b];
    assert VolunteerLt(c, a);
  }

  /** Example: in that ranking the ranks are 1, 2 and 3 in list order. */
  lemma RankExample(c: Volunteer, a: Volunteer, b: Volunteer)
    requires c.id == 3 && a.id == 2 && b.id == 1
    ensures Rank([c, a, b], 3) == 1 && Rank([c, a, b], 2) == 2 && Rank([c, a, b], 1) == 3
  {
    RankAt([c, a, b], 0);
    RankAt([c, a, b], 1);
    RankAt([c, a, b], 2);
  }

  // ---------------------------------------------------------------------------
  // Rank

  function HasId(id: int): Volunteer -> bool {
    (v: Volunteer) => v.id == id
  }

  /** `sorted.findIndex(sv => sv.id === id) + 1`: 1-based, 0 when absent. */
  function Rank(sorted: seq<Volunteer>, id: int): (r: int)
    ensures 0 <= r <= |sorted|
    ensures r == 0 <==> forall k :: 0 <= k < |sorted| ==> sorted[k].id != id
    ensures r > 0 ==> sorted[r - 1].id == id && forall k :: 0 <= k < r - 1 ==> sorted[k].id != id
  {
    Js.FindIndex(sorted, HasId(id)) + 1
  }

  function VolunteerId(v: Volunteer): int { v.id }

  /** With distinct ids, the volunteer at position `k` has rank `k + 1`. */
  lemma RankAt(sorted: seq<Volunteer>, k: int)
    requires 0 <= k < |sorted|
    requires Js.UniqueKeys(sorted, VolunteerId)
    ensures Rank(sorted, sorted[k].id) == k + 1
  {
    assert forall i :: 0 <= i < k ==> VolunteerId(sorted[i]) != VolunteerId(sorted[k]);
  }

  /** Distinct ids stay distinct in the ranking, so ranks are distinct. */
  lemma RanksDistinct(vs: seq<Volunteer>, i: int, j: int)
    requires Js.UniqueKeys(vs, VolunteerId)
    requires 0 <= i < j < |vs|
    ensures var r := SortedVolunteers(vs);
      Rank(r, r[i].id) == i + 1 && Rank(r, r[j].id) == j + 1
  {
    var r := SortedVolunteers(vs);
    Js.UniqueKeysPermutation(vs, r, VolunteerId);
    RankAt(r, i);
    RankAt(r, j);
  }

  function HasName(name: string): UniversityStats -> bool {
    (u: UniversityStats) => u.name == name
  }

  /** `universities.findIndex(u => u.name === name) + 1`. */
  function UniversityRank(sorted: seq<UniversityStats>, name: string): (r: int)
    ensures 0 <= r <= |sorted|
    ensures r == 0 <==> forall k :: 0 <= k < |sorted| ==> sorted[k].name != name
    ensures r > 0 ==> sorted[r - 1].name == name && forall k :: 0 <= k < r - 1 ==> sorted[k].name != name
  {
    Js.FindIndex(sorted, HasName(name)) + 1
  }

  /** Each ranked university's rank is its position plus one. */
  lemma UniversityRankAt(vs: seq<Volunteer>, k: int)
    requires 0 <= k < |Aggregate(vs)|
    ensures var r := StableSort.Sort(Aggregate(vs), UniversityLt);
      UniversityRank(r, r[k].name) == k + 1
  {
    var r := StableSort.Sort(Aggregate(vs), UniversityLt);
    UniversityNamesUnique(vs);
  }

  // ---------------------------------------------------------------------------
  // Filter chips, search and pages

  datatype Chip = NoChip | Top10 | Plus50

  function HoursAtLeast50(): Volunteer -> bool {
    (v: Volunteer) => v.hours >= 50
  }

  function NameMatches(term: string): Volunteer -> bool {
    (v: Volunteer) => Js.Includes(Js.ToLower(v.fullName), Js.ToLower(term))
  }

  /** The first ten of a list, or all of it when shorter. */
  function TopTen(sorted: seq<Volunteer>): seq<Volunteer> {
    sorted[..if |sorted| < 10 then |sorted| else 10]
  }

  /** The list after the chip. */
  function ChipList(sorted: seq<Volunteer>, chip: Chip): (r: seq<Volunteer>)
    ensures chip == NoChip ==> r == sorted
    ensures chip == Top10 ==> r == TopTen(sorted)
    ensures chip == Plus50 ==> forall v :: v in r <==> v in sorted && v.hours >= 50
    ensures chip == Plus50 ==> Js.InOrderSelection(r, sorted, HoursAtLeast50())
  {
    match chip
    case NoChip => sorted
    case Top10 => Js.Slice(sorted, 0, 10)
    case Plus50 =>
      Js.FilterMembers(sorted, HoursAtLeast50());
      Js.FilterInOrder(sorted, HoursAtLeast50());
      Js.Filter(sorted, HoursAtLeast50())
  }

  /** The search on the chip's list. */
  function NameFiltered(list: seq<Volunteer>, term: string): (r: seq<Volunteer>)
    ensures forall v :: v in r <==> v in list && Js.Includes(Js.ToLower(v.fullName), Js.ToLower(term))
    ensures Js.InOrderSelection(r, list, NameMatches(term))
  {
    Js.FilterMembers(list, NameMatches(term));
    Js.FilterInOrder(list, NameMatches(term));
    Js.Filter(list, NameMatches(term))
  }

  /** `filteredVolunteers`: the chip, then a case-insensitive, untrimmed
      substring match on the name, keeping the order of the chip's list. */
  function FilteredVolunteers(sorted: seq<Volunteer>, chip: Chip, term: string): (r: seq<Volunteer>)
    ensures forall k :: 0 <= k < |r| ==>
      && r[k] in sorted
      && Js.Includes(Js.ToLower(r[k].fullName), Js.ToLower(term))
      && (chip == Top10 ==> r[k] in TopTen(sorted))
      && (chip == Plus50 ==> r[k].hours >= 50)
    ensures forall k :: 0 <= k < |sorted| ==>
      (&& Js.Includes(Js.ToLower(sorted[k].fullName), Js.ToLower(term))
       && (chip == Top10 ==> k < 10)
       && (chip == Plus50 ==> sorted[k].hours >= 50))
      ==> sorted[k] in r
    ensures Js.InOrderSelection(r, ChipList(sorted, chip), NameMatches(term))
  {
    var list := ChipList(sorted, chip);
    assert forall k :: 0 <= k < |sorted| && chip == Top10 && k < 10 ==> sorted[k] in list by {
      if chip == Top10 {
        forall k | 0 <= k < |sorted| && k < 10 ensures sorted[k] in list {
          assert list[k] == sorted[k];
        }
      }
    }
    NameFiltered(list, term)
  }

  /** Filtering the filtered list again changes nothing. */
  lemma FilteredIdempotent(sorted: seq<Volunteer>, chip: Chip, term: string)
    ensures FilteredVolunteers(FilteredVolunteers(sorted, chip, term), chip, term)
      == FilteredVolunteers(sorted, chip, term)
  {
    var list := ChipList(sorted, chip);
    var r := Js.Filter(list, NameMatches(term));
    Js.FilterIdempotent(list, NameMatches(term));
    match chip
    case NoChip =>
    case Top10 =>
      assert |r| <= 10;
      assert Js.Slice(r, 0, 10) == r;
    case Plus50 =>
      Js.FilterCommute(Js.Filter(sorted, HoursAtLeast50()), HoursAtLeast50(), NameMatches(term));
      Js.FilterIdempotent(sorted, HoursAtLeast50());
  }

  const ItemsPerPage: nat := 10

  /** `Math.ceil(n / 10)`. */
  function TotalPages(n: nat): (r: nat)
    ensures (r - 1) * ItemsPerPage < n <= r * ItemsPerPage || (n == 0 && r == 0)
  {
    (n + ItemsPerPage - 1) / ItemsPerPage
  }

  /** `list.slice((page - 1) * 10, page * 10)`. */
  function Page<T>(list: seq<T>, page: int): (r: seq<T>)
    ensures 1 <= page && (page - 1) * ItemsPerPage <= |list| ==>
      r == list[(page - 1) * ItemsPerPage..if page * ItemsPerPage <= |list| then page * ItemsPerPage else |list|]
    ensures 1 <= page ==> |r| <= ItemsPerPage
  {
    Js.Slice(list, (page - 1) * ItemsPerPage, page * ItemsPerPage)
  }

  /** Pages `from`, `from + 1`, ..., `to - 1`, one after the other. */
  function Pages<T>(list: seq<T>, from: int, to: int): seq<T>
    decreases to - from
  {
    if from >= to then [] else Page(list, from) + Pages(list, from + 1, to)
  }

  /** From page `p` on, the pages give back the rest of the list. */
  lemma {:induction false} PagesFrom<T>(list: seq<T>, p: nat)
    requires 1 <= p <= TotalPages(|list|) + 1
    requires (p - 1) * ItemsPerPage <= |list|
    ensures Pages(list, p, TotalPages(|list|) + 1) == list[(p - 1) * ItemsPerPage..]
    decreases TotalPages(|list|) + 1 - p
  {
    var n := TotalPages(|list|);
    if p <= n {
      if p * ItemsPerPage <= |list| {
        PagesFrom(list, p + 1);
        var a := (p - 1) * ItemsPerPage;
        var b := p * ItemsPerPage;
        assert list[a..b] + list[b..] == list[a..];
      } else {
        assert p == n;
        assert Pages(list, p + 1, n + 1) == [];
      }
    } else {
      assert p == n + 1;
      assert (p - 1) * ItemsPerPage >= |list|;
    }
  }

  /** Pages 1 to `totalPages`, concatenated, are the list: no gap, no
      repetition, same order. */
  lemma PagesCoverList<T>(list: seq<T>)
    ensures Pages(list, 1, TotalPages(|list|) + 1) == list
  {
    PagesFrom(list, 1);
  }

  /** Pages past the last one are empty. */
  lemma PagePastEnd<T>(list: seq<T>, page: int)
    requires page > TotalPages(|list|)
    ensures Page(list, page) == []
  {
  }

  /** The podium: the first three of the full ranking. */
  function Podium<T>(sorted: seq<T>): (r: seq<T>)
    ensures |r| == if |sorted| < 3 then |sorted| else 3
    ensures r <= sorted
  {
    Js.Slice(sorted, 0, 3)
  }

  // ---------------------------------------------------------------------------
  // Paging controls

  /** The controls are not rendered for a single page or none. */
  predicate ControlsShown(totalPages: int) {
    totalPages > 1
  }

  /** `Math.max(1, currentPage - 1)` */
  function PrevPage(current: int): (r: int)
    ensures r >= 1
    ensures current > 1 ==> r == current - 1
  {
    if current - 1 > 1 then current - 1 else 1
  }

  /** `Math.min(totalPages, currentPage + 1)` */
  function NextPage(current: int, totalPages: int): (r: int)
    ensures r <= totalPages
    ensures current < totalPages ==> r == current + 1
  {
    if current + 1 < totalPages then current + 1 else totalPages
  }

  /** From a page in `[1, totalPages]`, previous and next stay in range. */
  lemma PagingStaysInRange(current: int, totalPages: int)
    requires 1 <= current <= totalPages
    ensures 1 <= PrevPage(current) <= totalPages
    ensures 1 <= NextPage(current, totalPages) <= totalPages
  {
  }

  /** The state of the volunteers tab. */
  class VolunteersBoard {
    var searchTerm: string
    var activeFilter: Chip
    var currentPage: int

    predicate Valid()
      reads this
    {
      currentPage >= 1
    }

    constructor ()
      ensures searchTerm == "" && activeFilter == NoChip && currentPage == 1 && Valid()
    {
      searchTerm := "";
      activeFilter := NoChip;
      currentPage := 1;
    }

    /** Typing in the search box; the effect on `[searchTerm, activeFilter]`
        then resets the page, but only when the term really changed: React
        skips an effect whose dependencies are all unchanged. */
    method SetSearchTerm(term: string)
      requires Valid()
      modifies this
      ensures searchTerm == term && activeFilter == old(activeFilter)
      ensures currentPage == if term == old(searchTerm) then old(currentPage) else 1
      ensures Valid()
    {
      if term != searchTerm {
        currentPage := 1;
      }
      searchTerm := term;
    }

    /** Clicking a chip; the same effect resets the page when the chip
        differs from the active one. Clicking the active chip again stores
        the same value, so the effect does not run and the page stays. */
    method SetActiveFilter(chip: Chip)
      requires Valid()
      modifies this
      ensures activeFilter == chip && searchTerm == old(searchTerm)
      ensures currentPage == if chip == old(activeFilter) then old(currentPage) else 1
      ensures Valid()
    {
      if chip != activeFilter {
        currentPage := 1;
      }
      activeFilter := chip;
    }

    /** The previous-page button; it exists only while the controls are shown. */
    method Prev(totalPages: int)
      requires ControlsShown(totalPages)
      modifies this`currentPage
      ensures currentPage == PrevPage(old(currentPage)) && Valid()
    {
      currentPage := PrevPage(currentPage);
    }

    /** The next-page button. */
    method Next(totalPages: int)
      requires Valid() && ControlsShown(totalPages)
      modifies this`currentPage
      ensures currentPage == NextPage(old(currentPage), totalPages) && Valid()
    {
      currentPage := NextPage(currentPage, totalPages);
    }

    /** What the tab shows for `volunteers`: the podium of the full ranking,
        the current page of the filtered ranking, and the page count. */
    method View(vs: seq<Volunteer>) returns (podium: seq<Volunteer>, page: seq<Volunteer>, totalPages: nat)
      ensures podium == Podium(SortedVolunteers(vs))
      ensures page == Page(FilteredVolunteers(SortedVolunteers(vs), activeFilter, searchTerm), currentPage)
      ensures totalPages == TotalPages(|FilteredVolunteers(SortedVolunteers(vs), activeFilter, searchTerm)|)
    {
      var sorted := SortedVolunteers(vs);
      var filtered := FilteredVolunteers(sorted, activeFilter, searchTerm);
      totalPages := TotalPages(|filtered|);
      page := Page(filtered, currentPage);
      podium := Podium(sorted);
    }
  }

  /** The state of the universities tab: only the page. */
  class UniversityBoard {
    var currentPage: int

    predicate Valid()
      reads this
    {
      currentPage >= 1
    }

    constructor ()
      ensures currentPage == 1 && Valid()
    {
      currentPage := 1;
    }

    method Prev(totalPages: int)
      requires ControlsShown(totalPages)
      modifies this
      ensures currentPage == PrevPage(old(currentPage)) && Valid()
    {
      currentPage := PrevPage(currentPage);
    }

    method Next(totalPages: int)
      requires Valid() && ControlsShown(totalPages)
      modifies this
      ensures currentPage == NextPage(old(currentPage), totalPages) && Valid()
    {
      currentPage := NextPage(currentPage, totalPages);
    }
  }
}
