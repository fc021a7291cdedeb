/** The plain grid of the portfolio page: one card per filtered project. */
module ProjectGrid {
  import opened Projects
  import opened Catalog
  import ProjectCard
  import Seqs

  /** `ProjectGrid` under the filter `filter`. */
  function Render(ps: seq<Project>, filter: string): (v: GridView<ProjectCard.Card>)
    ensures v == NoProjectsMessage <==> FilterProjects(ps, filter) == []
    ensures v.Items? ==> |v.items| == |FilterProjects(ps, filter)|
    ensures v.Items? ==> forall k :: 0 <= k < |v.items| ==> v.items[k] == ProjectCard.View(FilterProjects(ps, filter)[k])
  {
    var filtered := FilterProjects(ps, filter);
    if |filtered| > 0
    then Items(seq(|filtered|, k requires 0 <= k < |filtered| => ProjectCard.View(filtered[k])))
    else NoProjectsMessage
  }

  /** Every category button, used as the filter, yields a non-empty grid when
      there are projects; with none, the `'all'` button shows the message. */
  lemma EveryCategoryShowsCards(ps: seq<Project>, filter: string)
    requires filter in Categories(ps)
    ensures Render(ps, filter).Items? <==> |ps| > 0
  {
    CategoryButtonsNeverEmpty(ps, filter);
  }

  /** A filter that names no category shows the empty message. */
  lemma UnknownCategoryShowsMessage(ps: seq<Project>, filter: string)
    requires filter !in Categories(ps)
    ensures Render(ps, filter) == NoProjectsMessage
  {
    assert filter != ALL;
    assert forall i :: 0 <= i < |ps| ==> ps[i].category in Categories(ps)[1..];
    Seqs.KeepEmpty(ps, InCategory(filter));
  }
}
