/** The masonry grid of tall cards: the filtered projects, each card's height
    picked by its position in the filtered list. */
module ProjectGridMasonry {
  import opened Projects
  import opened Catalog
  import ProjectCardMasonry

  /** `ProjectGridMasonry` under the filter `filter`. */
  function Render(ps: seq<Project>, filter: string): (v: GridView<ProjectCardMasonry.Card>)
    ensures v == NoProjectsMessage <==> FilterProjects(ps, filter) == []
    ensures v.Items? ==> |v.items| == |FilterProjects(ps, filter)|
    ensures v.Items? ==> forall k :: 0 <= k < |v.items| ==>
      v.items[k] == ProjectCardMasonry.View(FilterProjects(ps, filter)[k], k)
  {
    var filtered := FilterProjects(ps, filter);
    if |filtered| > 0
    then Items(seq(|filtered|, k requires 0 <= k < |filtered| => ProjectCardMasonry.View(filtered[k], k)))
    else NoProjectsMessage
  }

  /** With the `'all'` filter there is one card per project, in order, and
      the grid is empty only when there are no projects. */
  lemma AllShowsEveryProject(ps: seq<Project>)
    ensures Render(ps, ALL) == NoProjectsMessage <==> ps == []
    ensures Render(ps, ALL).Items? ==> |Render(ps, ALL).items| == |ps|
    ensures Render(ps, ALL).Items? ==> forall k :: 0 <= k < |ps| ==> Render(ps, ALL).items[k] == ProjectCardMasonry.View(ps[k], k)
    ensures Render(ps, ALL).Items? ==> forall k :: 0 <= k < |ps| ==> Render(ps, ALL).items[k].face.title == ps[k].title
  {
  }

  /** A card in a category view shows a project of that category, and only the
      cards of that category are shown. */
  lemma CategoryViewShowsOnlyTheCategory(ps: seq<Project>, filter: string)
    requires filter != ALL
    ensures Render(ps, filter).Items? ==> forall k :: 0 <= k < |Render(ps, filter).items| ==> Render(ps, filter).items[k].category == filter
    ensures Render(ps, filter).Items? ==> |Render(ps, filter).items| <= |ps|
  {
  }

  /** Choosing any of the filter buttons shows the grid, never the empty
      message, as long as there is at least one project. */
  lemma ButtonsNeverShowTheEmptyMessage(ps: seq<Project>, filter: string)
    requires |ps| > 0 && filter in Categories(ps)
    ensures Render(ps, filter).Items?
  {
    CategoryButtonsNeverEmpty(ps, filter);
  }
}
