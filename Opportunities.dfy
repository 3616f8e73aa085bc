/**
 * The catalogue page of `src/components/pages/Opportunities.tsx`: the
 * category, work-style and text filters, the seven sort orders, and the
 * filter modal's temporary selections.
 */
module Opportunities {
  import opened Types
  import Js
  import StableSort

  datatype CategoryChoice = AllCategories | OneCategory(category: OpportunityCategory)
  datatype WorkStyleChoice = AllStyles | OneStyle(style: WorkStyle)

  datatype SortOption = Default | DateAsc | DateDesc | PointsDesc | PointsAsc | RatingDesc | ReviewsDesc

  // ---------------------------------------------------------------------------
  // Filtering

  /** `undefined` joins as the empty string. */
  function CityText(o: Opportunity): string {
    if o.city.Some? then o.city.value else ""
  }

  /** `[title, organization, city, ...skillTags].join(' ').toLowerCase()` */
  function SearchableContent(o: Opportunity): string {
    Js.ToLower(Js.Join([o.title, o.organization, CityText(o)] + o.skillTags, " "))
  }

  /** `searchTerm.toLowerCase().trim()` */
  function NormalizedTerm(term: string): string {
    Js.Trim(Js.ToLower(term))
  }

  predicate CategoryMatches(choice: CategoryChoice, o: Opportunity) {
    choice.AllCategories? || o.category == choice.category
  }

  predicate WorkStyleMatches(choice: WorkStyleChoice, o: Opportunity) {
    choice.AllStyles? || o.workStyle == choice.style
  }

  /** The filter callback. */
  predicate Matches(cat: CategoryChoice, ws: WorkStyleChoice, term: string, o: Opportunity) {
    var t := NormalizedTerm(term);
    if t == "" then CategoryMatches(cat, o) && WorkStyleMatches(ws, o)
    else CategoryMatches(cat, o) && WorkStyleMatches(ws, o) && Js.Includes(SearchableContent(o), t)
  }

  function Matching(cat: CategoryChoice, ws: WorkStyleChoice, term: string): Opportunity -> bool {
    (o: Opportunity) => Matches(cat, ws, term, o)
  }

  /** The catalogue entries that pass every active predicate, in catalogue
      order. */
  function FilteredOpportunities(all: seq<Opportunity>, cat: CategoryChoice, ws: WorkStyleChoice, term: string)
    : (r: seq<Opportunity>)
    ensures forall k :: 0 <= k < |r| ==> r[k] in all && Matches(cat, ws, term, r[k])
    ensures forall k :: 0 <= k < |all| && Matches(cat, ws, term, all[k]) ==> all[k] in r
    ensures Js.InOrderSelection(r, all, Matching(cat, ws, term))
  {
    Js.FilterMembers(all, Matching(cat, ws, term));
    Js.FilterInOrder(all, Matching(cat, ws, term));
    Js.Filter(all, Matching(cat, ws, term))
  }

  /** Lower-casing changes no white space, so a blank term stays blank. */
  lemma ToLowerKeepsBlank(s: string)
    ensures Js.IsBlank(Js.ToLower(s)) <==> Js.IsBlank(s)
  {
    var l := Js.ToLower(s);
    Js.BlankIffAllSpace(s);
    Js.BlankIffAllSpace(l);
    forall i | 0 <= i < |s| ensures Js.IsSpace(l[i]) <==> Js.IsSpace(s[i]) {
      Js.LowerCharKeepsSpace(s[i]);
    }
  }

  /** A term that is empty or white space only disables the text predicate:
      exactly the category and work-style predicates remain. */
  lemma BlankTermIgnored(cat: CategoryChoice, ws: WorkStyleChoice, term: string, o: Opportunity)
    requires Js.IsBlank(term)
    ensures Matches(cat, ws, term, o) <==> CategoryMatches(cat, o) && WorkStyleMatches(ws, o)
  {
    ToLowerKeepsBlank(term);
  }

  /** Otherwise an opportunity passes iff both predicates hold and the
      normalized term occurs in its searchable text. */
  lemma TermMatches(cat: CategoryChoice, ws: WorkStyleChoice, term: string, o: Opportunity)
    requires !Js.IsBlank(term)
    ensures Matches(cat, ws, term, o) <==>
      CategoryMatches(cat, o) && WorkStyleMatches(ws, o) && Js.Includes(SearchableContent(o), NormalizedTerm(term))
  {
    ToLowerKeepsBlank(term);
  }

  /** A term found in the lower-cased title is found in the searchable text,
      which starts with the title. */
  lemma {:induction false} TitleHitIsFound(o: Opportunity, t: string)
    requires Js.Includes(Js.ToLower(o.title), t)
    ensures Js.Includes(SearchableContent(o), t)
  {
    var parts := [o.title, o.organization, CityText(o)] + o.skillTags;
    var joined := Js.Join(parts, " ");
    assert parts[1..] == [o.organization, CityText(o)] + o.skillTags;
    assert joined == o.title + " " + Js.Join(parts[1..], " ");
    ToLowerConcat(o.title, " " + Js.Join(parts[1..], " "));
    var i :| 0 <= i <= |Js.ToLower(o.title)| && t <= Js.ToLower(o.title)[i..];
    var whole := SearchableContent(o);
    assert whole[..|o.title|] == Js.ToLower(o.title);
    assert t <= whole[i..];
  }

  lemma {:induction false} ToLowerConcat(a: string, b: string)
    ensures Js.ToLower(a + b) == Js.ToLower(a) + Js.ToLower(b)
  {
    var l := Js.ToLower(a + b);
    assert forall k :: 0 <= k < |a| ==> (a + b)[k] == a[k];
    assert forall k :: |a| <= k < |a + b| ==> (a + b)[k] == b[k - |a|];
    assert l == Js.ToLower(a) + Js.ToLower(b);
  }

  /** Filtering the result again with the same selection changes nothing. */
  lemma FilterIdempotent(all: seq<Opportunity>, cat: CategoryChoice, ws: WorkStyleChoice, term: string)
    ensures FilteredOpportunities(FilteredOpportunities(all, cat, ws, term), cat, ws, term)
      == FilteredOpportunities(all, cat, ws, term)
  {
    Js.FilterIdempotent(all, Matching(cat, ws, term));
  }

  // ---------------------------------------------------------------------------
  // Sorting

  function Featured(o: Opportunity): int {
    if o.isFeatured == Some(true) then 1 else 0
  }

  /** `cmp(a, b) < 0` for the comparator of each option. */
  predicate Before(opt: SortOption, a: Opportunity, b: Opportunity) {
    match opt
    case DateAsc => Js.LocaleCompare(a.applicationDeadline, b.applicationDeadline) < 0
    case DateDesc => Js.LocaleCompare(b.applicationDeadline, a.applicationDeadline) < 0
    case PointsAsc => a.points - b.points < 0
    case PointsDesc => b.points - a.points < 0
    case RatingDesc => b.rating - a.rating < 0.0
    case ReviewsDesc => b.reviewsCount - a.reviewsCount < 0
    case Default => Featured(b) - Featured(a) < 0
  }

  function SortLt(opt: SortOption): (Opportunity, Opportunity) -> bool {
    (a: Opportunity, b: Opportunity) => Before(opt, a, b)
  }

  /** Each of the seven comparators is a strict weak order, the condition
      under which `sort` is well defined. */
  lemma SortLtIsStrictWeakOrder(opt: SortOption)
    ensures StableSort.StrictWeakOrder(SortLt(opt))
  {
    var lt := SortLt(opt);
    if opt == DateAsc || opt == DateDesc {
      forall a: Opportunity ensures !lt(a, a) {
        Js.StrLtIrreflexive(a.applicationDeadline);
      }
      forall a: Opportunity, b: Opportunity, c: Opportunity | lt(a, b) && lt(b, c) ensures lt(a, c) {
        if opt == DateAsc {
          Js.StrLtTransitive(a.applicationDeadline, b.applicationDeadline, c.applicationDeadline);
        } else {
          Js.StrLtTransitive(c.applicationDeadline, b.applicationDeadline, a.applicationDeadline);
        }
      }
      forall a: Opportunity, b: Opportunity, c: Opportunity | lt(a, c) ensures lt(a, b) || lt(b, c) {
        var x, y, z := a.applicationDeadline, b.applicationDeadline, c.applicationDeadline;
        Js.StrLtTotal(x, y);
        Js.StrLtTotal(y, z);
        if opt == DateAsc {
          if !Js.StrLt(x, y) && !Js.StrLt(y, z) && x != y {
            Js.StrLtTransitive(y, x, z);
          }
        } else {
          if !Js.StrLt(y, x) && !Js.StrLt(z, y) && x != y {
            Js.StrLtTransitive(z, x, y);
          }
        }
      }
    }
  }

  /** The list the page shows. */
  function FilteredAndSorted(all: seq<Opportunity>, cat: CategoryChoice, ws: WorkStyleChoice, term: string,
                             opt: SortOption): seq<Opportunity> {
    StableSort.Sort(FilteredOpportunities(all, cat, ws, term), SortLt(opt))
  }

  /** The shown list is a rearrangement of the filtered list, in the order of
      the selected comparator, with ties in catalogue order. */
  lemma ShownListIsSortedFilter(all: seq<Opportunity>, cat: CategoryChoice, ws: WorkStyleChoice, term: string,
                                opt: SortOption, k: Opportunity)
    ensures var f := FilteredOpportunities(all, cat, ws, term);
      var r := FilteredAndSorted(all, cat, ws, term, opt);
      && multiset(r) == multiset(f)
      && StableSort.Sorted(r, SortLt(opt))
      && StableSort.Tied(r, SortLt(opt), k) == StableSort.Tied(f, SortLt(opt), k)
  {
    var f := FilteredOpportunities(all, cat, ws, term);
    SortLtIsStrictWeakOrder(opt);
    StableSort.SortSorted(f, SortLt(opt));
    StableSort.SortStable(f, SortLt(opt), k);
  }

  /** What each order means for neighbours-at-any-distance in the result. */
  lemma SortOrderMeaning(all: seq<Opportunity>, cat: CategoryChoice, ws: WorkStyleChoice, term: string,
                         opt: SortOption, i: int, j: int)
    requires 0 <= i < j < |FilteredAndSorted(all, cat, ws, term, opt)|
    ensures var r := FilteredAndSorted(all, cat, ws, term, opt);
      match opt
      case DateAsc => !Js.StrLt(r[j].applicationDeadline, r[i].applicationDeadline)
      case DateDesc => !Js.StrLt(r[i].applicationDeadline, r[j].applicationDeadline)
      case PointsAsc => r[i].points <= r[j].points
      case PointsDesc => r[i].points >= r[j].points
      case RatingDesc => r[i].rating >= r[j].rating
      case ReviewsDesc => r[i].reviewsCount >= r[j].reviewsCount
      case Default => Featured(r[j]) == 1 ==> Featured(r[i]) == 1
  {
    var r := FilteredAndSorted(all, cat, ws, term, opt);
    ShownListIsSortedFilter(all, cat, ws, term, opt, r[0]);
    assert !SortLt(opt)(r[j], r[i]);
  }

  /** The default order puts featured opportunities first, and within the
      featured group and within the other group keeps catalogue order. */
  lemma DefaultOrderKeepsGroups(all: seq<Opportunity>, cat: CategoryChoice, ws: WorkStyleChoice, term: string,
                                k: Opportunity)
    ensures var f := FilteredOpportunities(all, cat, ws, term);
      var r := FilteredAndSorted(all, cat, ws, term, Default);
      && (forall i, j :: 0 <= i < j < |r| && Featured(r[j]) == 1 ==> Featured(r[i]) == 1)
      && StableSort.Tied(r, SortLt(Default), k) == StableSort.Tied(f, SortLt(Default), k)
      && (forall x: Opportunity :: StableSort.Tie(SortLt(Default), x, k) <==> Featured(x) == Featured(k))
  {
    var r := FilteredAndSorted(all, cat, ws, term, Default);
    ShownListIsSortedFilter(all, cat, ws, term, Default, k);
    forall i, j | 0 <= i < j < |r| && Featured(r[j]) == 1 ensures Featured(r[i]) == 1 {
      assert !SortLt(Default)(r[j], r[i]);
    }
  }

  // ---------------------------------------------------------------------------
  // Page state

  class OpportunitiesPage {
    var searchTerm: string
    var selectedCategory: CategoryChoice
    var selectedWorkStyle: WorkStyleChoice
    var sortOption: SortOption
    var isFilterModalOpen: bool
    var tempCategory: CategoryChoice
    var tempWorkStyle: WorkStyleChoice
    var tempSort: SortOption

    constructor ()
      ensures searchTerm == "" && selectedCategory == AllCategories && selectedWorkStyle == AllStyles
      ensures sortOption == Default && !isFilterModalOpen
      ensures tempCategory == AllCategories && tempWorkStyle == AllStyles && tempSort == Default
    {
      searchTerm := "";
      selectedCategory, selectedWorkStyle, sortOption := AllCategories, AllStyles, Default;
      isFilterModalOpen := false;
      tempCategory, tempWorkStyle, tempSort := AllCategories, AllStyles, Default;
    }

    /** Typing in the search box. */
    method SetSearchTerm(term: string)
      modifies this`searchTerm
      ensures searchTerm == term
    {
      searchTerm := term;
    }

    /** A category chip of the desktop filter bar applies at once, without the modal. */
    method SelectCategory(cat: CategoryChoice)
      modifies this`selectedCategory
      ensures selectedCategory == cat
    {
      selectedCategory := cat;
    }

    /** A work-style chip of the desktop filter bar. */
    method SelectWorkStyle(ws: WorkStyleChoice)
      modifies this`selectedWorkStyle
      ensures selectedWorkStyle == ws
    {
      selectedWorkStyle := ws;
    }

    /** The sort selector of the desktop filter bar. */
    method SelectSort(opt: SortOption)
      modifies this`sortOption
      ensures sortOption == opt
    {
      sortOption := opt;
    }

    /** Closing the modal without applying keeps the active selection. */
    method CloseFilterModal()
      modifies this`isFilterModalOpen
      ensures !isFilterModalOpen
    {
      isFilterModalOpen := false;
    }

    /** The filter button: the modal starts from the active selection. */
    method OpenFilterModal()
      modifies this
      ensures isFilterModalOpen
      ensures tempCategory == selectedCategory && tempWorkStyle == selectedWorkStyle && tempSort == sortOption
      ensures selectedCategory == old(selectedCategory) && selectedWorkStyle == old(selectedWorkStyle)
      ensures sortOption == old(sortOption) && searchTerm == old(searchTerm)
    {
      tempCategory := selectedCategory;
      tempWorkStyle := selectedWorkStyle;
      tempSort := sortOption;
      isFilterModalOpen := true;
    }

    /** Choices inside the modal touch only the temporary selection. */
    method ChooseInModal(cat: CategoryChoice, ws: WorkStyleChoice, opt: SortOption)
      modifies this`tempCategory, this`tempWorkStyle, this`tempSort
      ensures tempCategory == cat && tempWorkStyle == ws && tempSort == opt
    {
      tempCategory, tempWorkStyle, tempSort := cat, ws, opt;
    }

    /** `handleApplyFilters` */
    method ApplyFilters()
      modifies this
      ensures selectedCategory == old(tempCategory) && selectedWorkStyle == old(tempWorkStyle)
      ensures sortOption == old(tempSort) && !isFilterModalOpen
      ensures searchTerm == old(searchTerm)
      ensures tempCategory == old(tempCategory) && tempWorkStyle == old(tempWorkStyle) && tempSort == old(tempSort)
    {
      selectedCategory := tempCategory;
      selectedWorkStyle := tempWorkStyle;
      sortOption := tempSort;
      isFilterModalOpen := false;
    }

    /** The shown list for the catalogue `all`. */
    method Shown(all: seq<Opportunity>) returns (r: seq<Opportunity>)
      ensures r == FilteredAndSorted(all, selectedCategory, selectedWorkStyle, searchTerm, sortOption)
    {
      r := FilteredAndSorted(all, selectedCategory, selectedWorkStyle, searchTerm, sortOption);
    }
  }
}
