/** The category filter shared by the three project grids: the list of
    filter buttons and the filtered project list. The three grid files
    define these with the same expressions. */
module Catalog {
  import opened Projects
  import Seqs
  import Text

  /** The filter value that shows every project. */
  const ALL: string := "all"

  /** `projects.map(p => p.category)`. */
  function CategoryNames(ps: seq<Project>): (r: seq<string>)
    ensures |r| == |ps|
    ensures forall i :: 0 <= i < |ps| ==> r[i] == ps[i].category
  {
    seq(|ps|, i requires 0 <= i < |ps| => ps[i].category)
  }

  /** `['all', ...new Set(projects.map(p => p.category))]`: `'all'`, then every
      category that occurs, once each. */
  function Categories(ps: seq<Project>): (r: seq<string>)
    ensures |r| >= 1 && r[0] == ALL
    ensures forall i :: 0 <= i < |ps| ==> ps[i].category in r[1..]
    ensures forall c :: c in r[1..] ==> c in CategoryNames(ps)
  {
    var names := CategoryNames(ps);
    var d := Seqs.Dedup(names);
    var r := [ALL] + d;
    assert r[1..] == d;
    r
  }

  /** Each category has one button. */
  lemma CategoriesDistinct(ps: seq<Project>)
    ensures Seqs.Distinct(Categories(ps)[1..])
  {
    var d := Seqs.Dedup(CategoryNames(ps));
    Seqs.DedupDistinct(CategoryNames(ps));
    assert Categories(ps)[1..] == d;
  }

  /** The categories after `'all'` come in the order in which they first occur
      among the projects. */
  lemma {:induction false} CategoriesInFirstOccurrenceOrder(ps: seq<Project>, i: nat, j: nat)
    requires 1 <= i < j < |Categories(ps)|
    ensures Categories(ps)[i] in CategoryNames(ps) && Categories(ps)[j] in CategoryNames(ps)
    ensures Seqs.IndexOf(CategoryNames(ps), Categories(ps)[i]) < Seqs.IndexOf(CategoryNames(ps), Categories(ps)[j])
  {
    Seqs.DedupAfterHeadOrder(ALL, CategoryNames(ps), i, j);
  }

  /** The test applied by the filter. */
  function InCategory(filter: string): Project -> bool
  {
    (p: Project) => p.category == filter
  }

  /** `filter === 'all' ? projects : projects.filter(p => p.category === filter)`. */
  function FilterProjects(ps: seq<Project>, filter: string): (r: seq<Project>)
    ensures filter == ALL ==> r == ps
    ensures filter != ALL ==> forall i :: 0 <= i < |r| ==> r[i].category == filter
    ensures |r| <= |ps| && forall i :: 0 <= i < |r| ==> r[i] in ps
  {
    if filter == ALL then ps else Seqs.Keep(ps, InCategory(filter))
  }

  /** A category filter keeps exactly the projects of that category: an
      order-preserving subsequence that loses no project of the category. */
  lemma FilterKeepsExactlyTheCategory(ps: seq<Project>, filter: string)
    requires filter != ALL
    ensures Seqs.IsSubsequence(FilterProjects(ps, filter), ps)
    ensures forall p: Project :: p.category == filter ==> multiset(FilterProjects(ps, filter))[p] == multiset(ps)[p]
  {
    Seqs.KeepIsSubsequence(ps, InCategory(filter));
    forall p: Project | p.category == filter
      ensures multiset(FilterProjects(ps, filter))[p] == multiset(ps)[p]
    {
      Seqs.KeepCounts(ps, InCategory(filter), p);
    }
  }

  /** Every filter button shows something, unless there are no projects at all
      (then the only button, `'all'`, shows nothing). */
  lemma CategoryButtonsNeverEmpty(ps: seq<Project>, filter: string)
    requires filter in Categories(ps)
    ensures FilterProjects(ps, filter) == [] <==> ps == []
  {
    if filter != ALL {
      var cats := Categories(ps);
      var k :| 0 <= k < |cats| && cats[k] == filter;
      assert k >= 1;
      var i :| 0 <= i < |ps| && ps[i].category == cats[k];
      Seqs.KeepEmpty(ps, InCategory(filter));
    }
  }

  /** A project whose category is literally `"all"` gets a second `'all'`
      button, and choosing it shows every project, not just that category. */
  lemma CategoryNamedAll(ps: seq<Project>, i: nat)
    requires i < |ps| && ps[i].category == ALL
    ensures ALL in Categories(ps)[1..]
    ensures FilterProjects(ps, ALL) == ps
  {
  }

  /** One filter button. */
  datatype FilterButton = FilterButton(value: string, caption: string, active: bool)

  /** The row of filter buttons: one per category, captioned with its first
      letter upper-cased, the current filter highlighted. */
  function FilterButtons(ps: seq<Project>, filter: string): (r: seq<FilterButton>)
    ensures |r| == |Categories(ps)|
    ensures forall k :: 0 <= k < |r| ==> r[k].value == Categories(ps)[k] && r[k].caption == Text.Capitalize(Categories(ps)[k])
    ensures forall k :: 0 <= k < |r| ==> (r[k].active <==> Categories(ps)[k] == filter)
  {
    var cats := Categories(ps);
    seq(|cats|, k requires 0 <= k < |cats| => FilterButton(cats[k], Text.Capitalize(cats[k]), cats[k] == filter))
  }

  /** Some button is highlighted exactly when the filter is one of the categories. */
  lemma {:induction false} SomeButtonActive(ps: seq<Project>, filter: string)
    ensures (exists k :: 0 <= k < |FilterButtons(ps, filter)| && FilterButtons(ps, filter)[k].active)
            <==> filter in Categories(ps)
  {
    var cats := Categories(ps);
    var buttons := FilterButtons(ps, filter);
    if filter in cats {
      var k :| 0 <= k < |cats| && cats[k] == filter;
      assert buttons[k].active;
    }
  }

  /** Unless a project's category is literally `"all"`, the `'all'` button is
      the only one with that value. */
  lemma {:induction false} AllListedOnce(ps: seq<Project>)
    requires forall i :: 0 <= i < |ps| ==> ps[i].category != ALL
    ensures Seqs.Distinct(Categories(ps))
  {
    var cats := Categories(ps);
    var names := CategoryNames(ps);
    CategoriesDistinct(ps);
    forall c | c in cats[1..] ensures c != ALL {
      var i :| 0 <= i < |names| && names[i] == c;
    }
    forall j, k | 0 <= j < k < |cats| ensures cats[j] != cats[k] {
      assert cats[k] == cats[1..][k - 1] && cats[1..][k - 1] in cats[1..];
      if j > 0 {
        assert cats[j] == cats[1..][j - 1];
      }
    }
  }

  /** So no two buttons are highlighted unless a project's category is
      literally `"all"`. */
  lemma {:induction false} AtMostOneActiveButton(ps: seq<Project>, filter: string)
    requires forall i :: 0 <= i < |ps| ==> ps[i].category != ALL
    ensures forall j, k :: 0 <= j < k < |FilterButtons(ps, filter)| ==>
              !(FilterButtons(ps, filter)[j].active && FilterButtons(ps, filter)[k].active)
  {
    AllListedOnce(ps);
  }

  /** The message "No projects in this category yet." replaces the grid exactly
      when the filtered list is empty. */
  datatype GridView<T> = Items(items: seq<T>) | NoProjectsMessage
}
