/**
 * The project gallery: the category list behind the filter buttons, the
 * projects shown for the selected filter, and the small piece of state
 * (selected filter, hovered item, loading flag) the handlers update.
 */
module Gallery {
  import opened Wrappers

  /** One entry of the gallery data; `category` is absent (`undefined` or `null`,
      which both reads of a category treat alike) or a string. */
  datatype Project = Project(title: string, largeImage: string, smallImage: string, category: Option<string>)

  const All := "all"

  /** `filter(Boolean)` keeps a category that is present and non-empty. */
  predicate Truthy(c: Option<string>) {
    c.Some? && c.value != ""
  }

  /** `data.map((item) => item.category).filter(Boolean)` */
  function CategoryValues(items: seq<Project>): seq<string> {
    if items == [] then []
    else
      var rest := CategoryValues(items[..|items| - 1]);
      var c := items[|items| - 1].category;
      if Truthy(c) then rest + [c.value] else rest
  }

  /** `[...new Set(s)]`: each value once, in order of first insertion. */
  function Distinct(s: seq<string>): seq<string> {
    if s == [] then []
    else
      var rest := Distinct(s[..|s| - 1]);
      if s[|s| - 1] in rest then rest else rest + [s[|s| - 1]]
  }

  /** The filter buttons' labels. */
  function Categories(data: Option<seq<Project>>): (r: seq<string>)
    ensures |r| >= 1 && r[0] == All
  {
    match data
    case None => [All]
    case Some(items) => [All] + Distinct(CategoryValues(items))
  }

  /** The projects shown for a filter. */
  function FilteredProjects(data: Option<seq<Project>>, filter: string): (r: seq<Project>)
    ensures data == None ==> r == []
    ensures data.Some? && filter == All ==> r == data.value
  {
    match data
    case None => []
    case Some(items) => if filter == All then items else InCategory(items, filter)
  }

  /** `items.filter((item) => item.category === filter)` */
  function InCategory(items: seq<Project>, filter: string): seq<Project> {
    if items == [] then []
    else
      var rest := InCategory(items[..|items| - 1], filter);
      if items[|items| - 1].category == Some(filter) then rest + [items[|items| - 1]] else rest
  }

  /** `categories.length > 1` */
  predicate ShowFilterButtons(data: Option<seq<Project>>) {
    |Categories(data)| > 1
  }

  // ---------------------------------------------------------------------------
  // Reference definitions

  predicate NoDuplicates(s: seq<string>) {
    forall i, j | 0 <= i < j < |s| :: s[i] != s[j]
  }

  /** The index of the first occurrence of `x`, which must occur. */
  function FirstIndex(s: seq<string>, x: string): (i: nat)
    requires x in s
    ensures i < |s| && s[i] == x && x !in s[..i]
  {
    if s[0] == x then 0 else 1 + FirstIndex(s[1..], x)
  }

  /** `sub` is `s` with some elements left out, the rest in their order. */
  predicate IsSubsequence<T(==)>(sub: seq<T>, s: seq<T>)
    decreases |s|
  {
    if sub == [] then true
    else if s == [] then false
    else if sub[|sub| - 1] == s[|s| - 1] then IsSubsequence(sub[..|sub| - 1], s[..|s| - 1])
    else IsSubsequence(sub, s[..|s| - 1])
  }

  // ---------------------------------------------------------------------------
  // Properties of the category list

  /** The category values are exactly the truthy categories of the data. */
  lemma {:induction false} CategoryValuesMembers(items: seq<Project>, c: string)
    ensures c in CategoryValues(items) <==> exists i | 0 <= i < |items| :: items[i].category == Some(c) && c != ""
  {
    if items != [] {
      var init := items[..|items| - 1];
      CategoryValuesMembers(init, c);
      if exists i | 0 <= i < |init| :: init[i].category == Some(c) && c != "" {
        var i :| 0 <= i < |init| && init[i].category == Some(c) && c != "";
        assert items[i] == init[i];
      }
      if exists i | 0 <= i < |items| :: items[i].category == Some(c) && c != "" {
        var i :| 0 <= i < |items| && items[i].category == Some(c) && c != "";
        if i < |init| { assert init[i] == items[i]; }
      }
    }
  }

  /** Set semantics: Distinct keeps every value once and invents none. */
  lemma {:induction false} DistinctMembers(s: seq<string>)
    ensures forall x :: x in Distinct(s) <==> x in s
    ensures NoDuplicates(Distinct(s))
  {
    if s != [] {
      DistinctMembers(s[..|s| - 1]);
      assert s == s[..|s| - 1] + [s[|s| - 1]];
    }
  }

  /** Insertion order: of two values of the set, the one first seen earlier comes first. */
  lemma {:induction false} DistinctOrder(s: seq<string>, i: int, j: int)
    requires 0 <= i < j < |Distinct(s)|
    ensures Distinct(s)[i] in s && Distinct(s)[j] in s
    ensures FirstIndex(s, Distinct(s)[i]) < FirstIndex(s, Distinct(s)[j])
  {
    DistinctMembers(s);
    var init := s[..|s| - 1];
    var rest := Distinct(init);
    DistinctMembers(init);
    var x, y := Distinct(s)[i], Distinct(s)[j];
    if j < |rest| {
      assert x == rest[i] && y == rest[j];
      DistinctOrder(init, i, j);
      FirstIndexPrefix(s, init, x);
      FirstIndexPrefix(s, init, y);
    } else {
      // y is the last value of s, seen there for the first time
      assert y == s[|s| - 1] && y !in init;
      assert x == rest[i] && x in init;
      FirstIndexPrefix(s, init, x);
      FirstIndexLast(s, y);
    }
  }

  lemma {:induction false} FirstIndexPrefix(s: seq<string>, init: seq<string>, x: string)
    requires |s| > 0 && init == s[..|s| - 1] && x in init
    ensures FirstIndex(s, x) == FirstIndex(init, x)
  {
    if s[0] != x {
      assert s[1..][..|s[1..]| - 1] == init[1..];
      FirstIndexPrefix(s[1..], init[1..], x);
    }
  }

  lemma FirstIndexLast(s: seq<string>, x: string)
    requires |s| > 0 && s[|s| - 1] == x && x !in s[..|s| - 1]
    ensures FirstIndex(s, x) == |s| - 1
  {
  }

  /** The category list is "all" followed by the distinct truthy categories of
      the data, without repeats and in order of first appearance. */
  lemma CategoriesSpec(items: seq<Project>)
    ensures Categories(Some(items))[0] == All
    ensures forall c :: c in Categories(Some(items))[1..] <==>
      exists i | 0 <= i < |items| :: items[i].category == Some(c) && c != ""
    ensures NoDuplicates(Categories(Some(items))[1..])
  {
    var vals := CategoryValues(items);
    assert Categories(Some(items))[1..] == Distinct(vals);
    DistinctMembers(vals);
    forall c ensures c in Distinct(vals) <==> exists i | 0 <= i < |items| :: items[i].category == Some(c) && c != "" {
      CategoryValuesMembers(items, c);
    }
  }

  /** No data: only "all", and nothing to show. */
  lemma NoData(filter: string)
    ensures Categories(None) == [All]
    ensures FilteredProjects(None, filter) == []
    ensures !ShowFilterButtons(None)
  {
  }

  /** The buttons appear exactly when some project has a truthy category. */
  lemma ShowFilterButtonsIff(items: seq<Project>)
    ensures ShowFilterButtons(Some(items)) <==> exists i | 0 <= i < |items| :: Truthy(items[i].category)
  {
    var vals := CategoryValues(items);
    DistinctMembers(vals);
    if exists i | 0 <= i < |items| :: Truthy(items[i].category) {
      var i :| 0 <= i < |items| && Truthy(items[i].category);
      CategoryValuesMembers(items, items[i].category.value);
      assert items[i].category.value in Distinct(vals);
    }
    if ShowFilterButtons(Some(items)) {
      var c := Distinct(vals)[0];
      CategoryValuesMembers(items, c);
    }
  }

  /** A project whose category is literally "all" makes "all" appear twice. */
  lemma AllCategoryDuplicated(items: seq<Project>, k: int)
    requires 0 <= k < |items| && items[k].category == Some(All)
    ensures !NoDuplicates(Categories(Some(items)))
    ensures multiset(Categories(Some(items)))[All] == 2
  {
    var vals := CategoryValues(items);
    CategoryValuesMembers(items, All);
    DistinctMembers(vals);
    var r := Categories(Some(items));
    var j :| 0 <= j < |Distinct(vals)| && Distinct(vals)[j] == All;
    assert r[0] == All && r[j + 1] == All;
    OccursOnce(Distinct(vals), j);
    assert r == [All] + Distinct(vals);
  }

  /** In a sequence without repeats, the value at `j` occurs exactly once. */
  lemma OccursOnce(s: seq<string>, j: int)
    requires NoDuplicates(s) && 0 <= j < |s|
    ensures multiset(s)[s[j]] == 1
  {
    var x := s[j];
    assert s == s[..j] + [x] + s[j + 1..];
    assert x !in s[..j];
    var after := s[j + 1..];
    forall k | 0 <= k < |after| ensures after[k] != x {
      assert after[k] == s[j + 1 + k];
    }
    assert x !in after;
  }

  // ---------------------------------------------------------------------------
  // Properties of the filtered list

  /** A category filter keeps, in order, only projects of that category. */
  lemma {:induction false} InCategoryOrdered(items: seq<Project>, filter: string)
    ensures IsSubsequence(InCategory(items, filter), items)
    ensures forall p | p in InCategory(items, filter) :: p.category == Some(filter)
  {
    if items != [] {
      var init := items[..|items| - 1];
      var last := items[|items| - 1];
      var rest := InCategory(init, filter);
      InCategoryOrdered(init, filter);
      var r := InCategory(items, filter);
      if last.category == Some(filter) {
        assert r == rest + [last];
        assert r[..|r| - 1] == rest;
      } else {
        assert r == rest;
        if r != [] {
          assert r[|r| - 1] in rest;
        }
      }
    }
  }

  /** A category filter keeps each project of that category as often as the
      data holds it, and no other project. */
  lemma {:induction false} InCategoryCount(items: seq<Project>, filter: string, p: Project)
    ensures multiset(InCategory(items, filter))[p] ==
            if p.category == Some(filter) then multiset(items)[p] else 0
  {
    if items != [] {
      var init := items[..|items| - 1];
      var last := items[|items| - 1];
      var rest := InCategory(init, filter);
      InCategoryCount(init, filter, p);
      assert items == init + [last];
      assert multiset(items) == multiset(init) + multiset{last};
      if last.category == Some(filter) {
        assert InCategory(items, filter) == rest + [last];
        assert multiset(InCategory(items, filter)) == multiset(rest) + multiset{last};
      } else {
        assert InCategory(items, filter) == rest;
      }
    }
  }

  /** A category filter keeps, in order, exactly the projects of that category,
      each as often as the data holds it. */
  lemma InCategorySpec(items: seq<Project>, filter: string)
    ensures IsSubsequence(InCategory(items, filter), items)
    ensures forall p | p in InCategory(items, filter) :: p.category == Some(filter)
    ensures forall p :: (multiset(InCategory(items, filter))[p] ==
                         if p.category == Some(filter) then multiset(items)[p] else 0)
  {
    InCategoryOrdered(items, filter);
    forall p ensures multiset(InCategory(items, filter))[p] ==
                     if p.category == Some(filter) then multiset(items)[p] else 0 {
      InCategoryCount(items, filter, p);
    }
  }

  /** The gallery's list for any filter: everything for "all", otherwise the
      order-preserving selection of exactly that category's projects. */
  lemma FilteredProjectsSpec(items: seq<Project>, filter: string)
    requires filter != All
    ensures IsSubsequence(FilteredProjects(Some(items), filter), items)
    ensures forall p | p in FilteredProjects(Some(items), filter) :: p.category == Some(filter)
    ensures forall i | 0 <= i < |items| && items[i].category == Some(filter) ::
      items[i] in FilteredProjects(Some(items), filter)
  {
    InCategorySpec(items, filter);
    forall i | 0 <= i < |items| && items[i].category == Some(filter)
      ensures items[i] in FilteredProjects(Some(items), filter)
    {
      assert multiset(items)[items[i]] > 0;
    }
  }

  // ---------------------------------------------------------------------------
  // What the grid shows

  /** The three renderings of the project grid. */
  datatype Grid = Loading | Items(projects: seq<Project>) | NoResults

  function GridContent(isLoading: bool, data: Option<seq<Project>>, filter: string): Grid {
    if isLoading then Loading
    else
      var shown := FilteredProjects(data, filter);
      if |shown| > 0 then Items(shown) else NoResults
  }

  /** Once the data is there, "No projects found" shows exactly when the filter
      matches no project: for "all" when the data is empty, otherwise when no
      project carries the selected category. */
  lemma NoResultsIff(items: seq<Project>, filter: string)
    ensures GridContent(false, Some(items), filter) == NoResults <==>
      if filter == All then items == []
      else forall i | 0 <= i < |items| :: items[i].category != Some(filter)
  {
    if filter != All {
      FilteredProjectsSpec(items, filter);
      InCategorySpec(items, filter);
      var shown := FilteredProjects(Some(items), filter);
      if |shown| > 0 {
        assert multiset(shown)[shown[0]] > 0;
        assert shown[0] in multiset(items);
        var i :| 0 <= i < |items| && items[i] == shown[0];
        assert items[i].category == Some(filter);
      }
    }
  }

  // ---------------------------------------------------------------------------
  // The component

  class GalleryView {
    var data: Option<seq<Project>>
    var isLoading: bool
    var filter: string
    var hoveredIndex: Option<nat>

    /** The loading placeholder shows exactly while there is no data. */
    ghost predicate Valid()
      reads this
    {
      isLoading == data.None?
    }

    constructor (initial: Option<seq<Project>>)
      ensures Valid() && data == initial && filter == All && hoveredIndex == None
    {
      data := initial;
      isLoading := initial.None?;
      filter := All;
      hoveredIndex := None;
    }

    /** New data arrives and the effect re-derives the loading flag. */
    method DataChanged(next: Option<seq<Project>>)
      modifies this`data, this`isLoading
      ensures Valid() && data == next
    {
      data := next;
      isLoading := next.None?;
    }

    /** A filter button is clicked; buttons exist only for listed categories,
        and only when there is more than one. */
    method SelectFilter(category: string)
      requires Valid() && ShowFilterButtons(data) && category in Categories(data)
      modifies this`filter
      ensures Valid()
      ensures filter == category
    {
      filter := category;
    }

    /** The pointer enters the `index`-th shown project. */
    method MouseEnter(index: nat)
      requires Valid() && Shown().Items? && index < |Shown().projects|
      modifies this`hoveredIndex
      ensures Valid() && hoveredIndex == Some(index)
    {
      hoveredIndex := Some(index);
    }

    /** What the project grid renders in this state. */
    function Shown(): Grid
      reads this
    {
      GridContent(isLoading, data, filter)
    }

    method MouseLeave()
      requires Valid()
      modifies this`hoveredIndex
      ensures Valid()
      ensures hoveredIndex == None
    {
      hoveredIndex := None;
    }
  }
}
