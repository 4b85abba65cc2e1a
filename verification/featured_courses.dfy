/** The category tabs and the filtered course grid (src/components/FeaturedCourses.tsx). */
module FeaturedCourses {
  import opened Courses

  datatype Tab = Tab(id: string, name: string)

  /** The filter tabs, in display order; the first one shows everything. */
  const Categories: seq<Tab> := [
    Tab("all", "All Courses"),
    Tab("frontend", "Frontend"),
    Tab("backend", "Backend"),
    Tab("database", "Database"),
    Tab("cloud", "Cloud"),
    Tab("devops", "DevOps")
  ]

  /** The value `activeCategory` starts with. */
  const InitialCategory: string := "all"

  /** `courses.filter(course => course.category === category)`. */
  function FilterByCategory(cs: seq<Course>, category: string): (r: seq<Course>)
    ensures |r| <= |cs|
    ensures forall c :: c in r ==> c in cs
  {
    if |cs| == 0 then []
    else if cs[0].category == category then [cs[0]] + FilterByCategory(cs[1..], category)
    else FilterByCategory(cs[1..], category)
  }

  /** `filteredCourses` for a given course list and active category. */
  function Visible(cs: seq<Course>, active: string): (r: seq<Course>)
    ensures active == "all" ==> r == cs
    ensures |r| <= |cs| && forall c :: c in r ==> c in cs
  {
    if active == "all" then cs else FilterByCategory(cs, active)
  }

  /** What the grid shows on the page, over the static catalog. */
  function FilteredCourses(active: string): (r: seq<Course>)
    ensures |r| <= |Catalog| && forall c :: c in r ==> c in Catalog
  {
    Visible(Catalog, active)
  }

  /** `a` can be obtained from `b` by deleting elements, keeping the order of the rest. */
  ghost predicate IsSubsequence(a: seq<Course>, b: seq<Course>)
    decreases |b|
  {
    if |b| == 0 then |a| == 0
    else (|a| > 0 && a[0] == b[0] && IsSubsequence(a[1..], b[1..])) || IsSubsequence(a, b[1..])
  }

  /** Number of records of `cs` whose category is `category`. */
  function CountCategory(cs: seq<Course>, category: string): nat
  {
    if |cs| == 0 then 0
    else (if cs[0].category == category then 1 else 0) + CountCategory(cs[1..], category)
  }

  /** Soundness: every course the filter keeps has the requested category. */
  lemma {:induction false} FilterSound(cs: seq<Course>, category: string)
    ensures forall c :: c in FilterByCategory(cs, category) ==> c.category == category
  {
    if |cs| > 0 {
      FilterSound(cs[1..], category);
    }
  }

  /** Completeness: every course of `cs` with the requested category is kept. */
  lemma {:induction false} FilterComplete(cs: seq<Course>, category: string)
    ensures forall i :: 0 <= i < |cs| && cs[i].category == category ==>
              cs[i] in FilterByCategory(cs, category)
  {
    if |cs| > 0 {
      FilterComplete(cs[1..], category);
      forall i | 0 < i < |cs| && cs[i].category == category
        ensures cs[i] in FilterByCategory(cs, category)
      {
        assert cs[i] == cs[1..][i - 1];
      }
    }
  }

  /** The filter keeps exactly as many courses as have the category. */
  lemma {:induction false} FilterLength(cs: seq<Course>, category: string)
    ensures |FilterByCategory(cs, category)| == CountCategory(cs, category) <= |cs|
  {
    if |cs| > 0 {
      FilterLength(cs[1..], category);
    }
  }

  /** Order preservation: the filtered list is a subsequence of its input. */
  lemma {:induction false} FilterIsSubsequence(cs: seq<Course>, category: string)
    ensures IsSubsequence(FilterByCategory(cs, category), cs)
  {
    if |cs| > 0 {
      FilterIsSubsequence(cs[1..], category);
      var rest := FilterByCategory(cs[1..], category);
      if cs[0].category == category {
        assert ([cs[0]] + rest)[1..] == rest;
      }
    }
  }

  /** A subsequence is never longer than the sequence it is drawn from. */
  lemma {:induction false} SubsequenceLength(a: seq<Course>, b: seq<Course>)
    requires IsSubsequence(a, b)
    ensures |a| <= |b|
    decreases |b|
  {
    if |b| > 0 {
      if |a| > 0 && a[0] == b[0] && IsSubsequence(a[1..], b[1..]) {
        SubsequenceLength(a[1..], b[1..]);
      } else {
        SubsequenceLength(a, b[1..]);
      }
    }
  }

  /** A category that no course has yields an empty grid. */
  lemma {:induction false} FilterNoMatch(cs: seq<Course>, category: string)
    requires forall i :: 0 <= i < |cs| ==> cs[i].category != category
    ensures FilterByCategory(cs, category) == []
  {
    if |cs| > 0 {
      assert forall i :: 0 <= i < |cs[1..]| ==> cs[1..][i] == cs[i + 1];
      FilterNoMatch(cs[1..], category);
    }
  }

  /** The whole contract of the grid: under "all" the input unchanged; under any
      other category a sound, complete, order-preserving selection. */
  lemma VisibleSpec(cs: seq<Course>, active: string)
    ensures active == "all" ==> Visible(cs, active) == cs
    ensures active != "all" ==>
      && (forall c :: c in Visible(cs, active) ==> c.category == active)
      && (forall i :: 0 <= i < |cs| && cs[i].category == active ==> cs[i] in Visible(cs, active))
      && IsSubsequence(Visible(cs, active), cs)
      && |Visible(cs, active)| == CountCategory(cs, active) <= |cs|
  {
    if active != "all" {
      FilterSound(cs, active);
      FilterComplete(cs, active);
      FilterIsSubsequence(cs, active);
      FilterLength(cs, active);
    }
  }

  /** Every catalog category is the id of one of the non-"all" tabs. */
  lemma CatalogCategoriesAreTabs()
    ensures forall i :: 0 <= i < |Catalog| ==>
              exists t :: 1 <= t < |Categories| && Categories[t].id == Catalog[i].category
  {
    var cats := seq(|Catalog|, i requires 0 <= i < |Catalog| => Catalog[i].category);
    assert cats == ["frontend", "frontend", "frontend", "backend", "database",
                    "cloud", "devops", "devops", "database", "backend"];
    forall i | 0 <= i < |Catalog|
      ensures exists t :: 1 <= t < |Categories| && Categories[t].id == Catalog[i].category
    {
      assert cats[i] == Catalog[i].category;
      var t := match Catalog[i].category
        case "frontend" => 1
        case "backend" => 2
        case "database" => 3
        case "cloud" => 4
        case _ => 5;
      assert Categories[t].id == Catalog[i].category;
    }
  }

  /** Tab ids are pairwise distinct, so after starting on "all" or clicking any
      tab, exactly the one tab whose id equals `activeCategory` is highlighted. */
  lemma ExactlyOneTabHighlighted(clicked: nat)
    requires clicked < |Categories|
    ensures Categories[0].id == InitialCategory
    ensures forall t :: 0 <= t < |Categories| ==>
              (Categories[t].id == Categories[clicked].id <==> t == clicked)
  {
    var ids := seq(|Categories|, i requires 0 <= i < |Categories| => Categories[i].id);
    assert ids == ["all", "frontend", "backend", "database", "cloud", "devops"];
    forall t | 0 <= t < |Categories| ensures Categories[t].id == Categories[clicked].id <==> t == clicked {
      assert ids[t] == Categories[t].id && ids[clicked] == Categories[clicked].id;
    }
  }

  /** The "all" tab is the only one that is not a course category, so every
      tab click produces a non-empty grid over the catalog. */
  lemma EveryTabShowsSomething(clicked: nat)
    requires clicked < |Categories|
    ensures |FilteredCourses(Categories[clicked].id)| > 0
  {
    var id := Categories[clicked].id;
    if id != "all" {
      var k := match id
        case "frontend" => 0
        case "backend" => 3
        case "database" => 4
        case "cloud" => 5
        case _ => 6;
      assert Catalog[k].category == id;
      FilterComplete(Catalog, id);
    }
  }

  /** Sum, over the given tab ids, of the number of courses each tab's grid shows. */
  function SumCounts(cs: seq<Course>, tabIds: seq<string>): nat
  {
    if |tabIds| == 0 then 0 else CountCategory(cs, tabIds[0]) + SumCounts(cs, tabIds[1..])
  }

  /** Number of courses whose category is one of the given tab ids. */
  function CountInTabs(cs: seq<Course>, tabIds: seq<string>): nat
  {
    if |cs| == 0 then 0
    else (if cs[0].category in tabIds then 1 else 0) + CountInTabs(cs[1..], tabIds)
  }

  /** Helper: splitting off one tab id that does not recur. */
  lemma {:induction false} CountInTabsSplit(cs: seq<Course>, t: string, rest: seq<string>)
    requires t !in rest
    ensures CountInTabs(cs, [t] + rest) == CountCategory(cs, t) + CountInTabs(cs, rest)
  {
    if |cs| > 0 {
      CountInTabsSplit(cs[1..], t, rest);
    }
  }

  /** Helper: with distinct tab ids the per-tab counts add up to the courses in any tab. */
  lemma {:induction false} SumCountsIsCountInTabs(cs: seq<Course>, tabIds: seq<string>)
    requires forall i, j :: 0 <= i < j < |tabIds| ==> tabIds[i] != tabIds[j]
    ensures SumCounts(cs, tabIds) == CountInTabs(cs, tabIds)
  {
    if |tabIds| == 0 {
      NoTabsCountNothing(cs);
    } else {
      SumCountsIsCountInTabs(cs, tabIds[1..]);
      assert [tabIds[0]] + tabIds[1..] == tabIds;
      CountInTabsSplit(cs, tabIds[0], tabIds[1..]);
    }
  }

  /** Helper: no course is in an empty set of tabs. */
  lemma {:induction false} NoTabsCountNothing(cs: seq<Course>)
    ensures CountInTabs(cs, []) == 0
  {
    if |cs| > 0 { NoTabsCountNothing(cs[1..]); }
  }

  /** Helper: when every course is in some tab, all of them are counted. */
  lemma {:induction false} AllInTabs(cs: seq<Course>, tabIds: seq<string>)
    requires forall i :: 0 <= i < |cs| ==> cs[i].category in tabIds
    ensures CountInTabs(cs, tabIds) == |cs|
  {
    if |cs| > 0 {
      assert forall i :: 0 <= i < |cs[1..]| ==> cs[1..][i] == cs[i + 1];
      AllInTabs(cs[1..], tabIds);
    }
  }

  /** When every course's category is one of pairwise distinct tab ids, the tab
      grids partition the list: their sizes add up to its length. */
  lemma TabsPartition(cs: seq<Course>, tabIds: seq<string>)
    requires forall i, j :: 0 <= i < j < |tabIds| ==> tabIds[i] != tabIds[j]
    requires forall i :: 0 <= i < |cs| ==> cs[i].category in tabIds
    ensures SumCounts(cs, tabIds) == |cs|
  {
    SumCountsIsCountInTabs(cs, tabIds);
    AllInTabs(cs, tabIds);
  }

  /** Over the catalog, the five category tabs together show all ten courses, each once. */
  lemma CategoryTabsCoverCatalog()
    ensures SumCounts(Catalog, ["frontend", "backend", "database", "cloud", "devops"]) == |Catalog|
    ensures forall i :: 0 <= i < |Catalog| ==>
              exists t :: 1 <= t < |Categories| && Catalog[i] in FilteredCourses(Categories[t].id) &&
                forall u :: 1 <= u < |Categories| && u != t ==> Catalog[i] !in FilteredCourses(Categories[u].id)
  {
    var tabIds := ["frontend", "backend", "database", "cloud", "devops"];
    CatalogCategoriesAreTabs();
    forall i | 0 <= i < |Catalog| ensures Catalog[i].category in tabIds {
      var t :| 1 <= t < |Categories| && Categories[t].id == Catalog[i].category;
      assert Categories[t].id == tabIds[t - 1];
    }
    TabsPartition(Catalog, tabIds);
    forall i | 0 <= i < |Catalog|
      ensures exists t :: 1 <= t < |Categories| && Catalog[i] in FilteredCourses(Categories[t].id) &&
                forall u :: 1 <= u < |Categories| && u != t ==> Catalog[i] !in FilteredCourses(Categories[u].id)
    {
      var t :| 1 <= t < |Categories| && Categories[t].id == Catalog[i].category;
      InOneCategoryGrid(Catalog, i, t);
    }
  }

  /** Helper: a course whose category is the id of category tab `t` appears in
      that tab's grid and in no other category tab's grid. */
  lemma InOneCategoryGrid(cs: seq<Course>, i: nat, t: nat)
    requires i < |cs| && 1 <= t < |Categories| && cs[i].category == Categories[t].id
    ensures cs[i] in Visible(cs, Categories[t].id)
    ensures forall u :: 1 <= u < |Categories| && u != t ==> cs[i] !in Visible(cs, Categories[u].id)
  {
    FilterComplete(cs, Categories[t].id);
    forall u | 1 <= u < |Categories| && u != t
      ensures cs[i] !in Visible(cs, Categories[u].id)
    {
      FilterSound(cs, Categories[u].id);
    }
  }
}
