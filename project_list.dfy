/** The admin list of projects: one row per project, and a delete button that
    is disabled while the delete of its row is under way. */
module ProjectList {
  import opened Wrappers
  import opened Projects
  import CardParts
  import Text

  /** The number of technologies a row shows. */
  const LIST_TECH_LIMIT: nat := 5

  /** The overflow badge of a row, `+{n} more`. */
  function MoreBadge(n: nat): (caption: string)
    ensures caption == "+" + Text.NatToString(n) + " more"
    ensures |caption| >= 7 && caption[0] == '+'
    ensures caption[|caption| - 5..] == " more"
    ensures Text.DecimalValue(caption[1..|caption| - 5]) == n
  {
    Text.DecimalRoundTrip(n);
    var digits := Text.NatToString(n);
    var caption := "+" + digits + " more";
    assert caption[1..|caption| - 5] == digits;
    caption
  }

  /** The caption of a delete button. */
  function DeleteCaption(deleting: bool): (caption: string)
    ensures deleting ==> caption == "Deleting..."
    ensures !deleting ==> caption == "Delete"
  {
    if deleting then "Deleting..." else "Delete"
  }

  /** One row of the list. */
  datatype Row = Row(
    thumbnail: Option<string>,
    title: string,
    statusClass: string,
    statusText: string,
    privateBadge: bool,
    description: string,
    tech: CardParts.TechPreview,
    moreBadge: Option<string>,
    category: string,
    editHref: string,
    deleteDisabled: bool,
    deleteCaption: string)

  /** The row of `p` while `deletingId` is the id being deleted. */
  function RowView(p: Project, deletingId: Option<string>): (r: Row)
    ensures r.thumbnail.Some? <==> Truthy(p.imageUrl)
    ensures r.thumbnail.Some? ==> r.thumbnail == p.imageUrl
    ensures r.title == p.title && r.description == p.description && r.category == p.category
    ensures r.statusClass == CardParts.StatusColor(p.status) && r.statusText == CardParts.StatusLabel(p.status)
    ensures r.privateBadge <==> !p.isPublic
    ensures r.statusClass == CardParts.DEFAULT_STATUS_CLASS <==> p.status !in CardParts.KNOWN_STATUSES
    ensures r.tech == CardParts.Truncate(p.techStack, LIST_TECH_LIMIT)
    ensures |r.tech.shown| <= LIST_TECH_LIMIT && |r.tech.shown| <= |p.techStack| && r.tech.shown == p.techStack[..|r.tech.shown|]
    ensures r.moreBadge.Some? <==> |p.techStack| > LIST_TECH_LIMIT
    ensures r.moreBadge.Some? ==> r.moreBadge.value == MoreBadge(|p.techStack| - LIST_TECH_LIMIT)
    ensures r.editHref == "/admin/edit/" + p.id
    ensures r.deleteDisabled <==> deletingId == Some(p.id)
    ensures r.deleteCaption == DeleteCaption(r.deleteDisabled)
  {
    var tech := CardParts.Truncate(p.techStack, LIST_TECH_LIMIT);
    var deleting := deletingId == Some(p.id);
    var color, text := CardParts.StatusColor(p.status), CardParts.StatusLabel(p.status);
    Row(if Truthy(p.imageUrl) then p.imageUrl else None,
        p.title,
        color,
        text,
        !p.isPublic,
        p.description,
        tech,
        if tech.overflow.Some? then Some(MoreBadge(tech.overflow.value)) else None,
        p.category,
        "/admin/edit/" + p.id,
        deleting,
        DeleteCaption(deleting))
  }

  /** The list: the rows, and the "No projects yet" panel. */
  datatype ListView = ListView(rows: seq<Row>, emptyState: bool)

  /** `ProjectList`. */
  function Render(ps: seq<Project>, deletingId: Option<string>): (v: ListView)
    ensures |v.rows| == |ps|
    ensures forall k :: 0 <= k < |ps| ==> v.rows[k] == RowView(ps[k], deletingId)
    ensures v.emptyState <==> |ps| == 0
  {
    ListView(seq(|ps|, k requires 0 <= k < |ps| => RowView(ps[k], deletingId)), |ps| == 0)
  }

  /** The ids are those of distinct database rows. */
  predicate DistinctIds(ps: seq<Project>)
  {
    forall j, k :: 0 <= j < k < |ps| ==> ps[j].id != ps[k].id
  }

  /** Nothing is disabled when no delete is under way, and with distinct ids
      at most one row is disabled otherwise. */
  lemma OneDisabledRow(ps: seq<Project>, deletingId: Option<string>)
    requires DistinctIds(ps)
    ensures deletingId == None ==> forall k :: 0 <= k < |ps| ==> !Render(ps, deletingId).rows[k].deleteDisabled
    ensures forall j, k :: 0 <= j < k < |ps| ==>
      !(Render(ps, deletingId).rows[j].deleteDisabled && Render(ps, deletingId).rows[k].deleteDisabled)
  {
  }

  /** The `deleteProject` server action called with an id. */
  datatype DeleteCall = DeleteCall(id: string)

  /** The list component's state: the `projects` prop and `deletingId`. */
  class ProjectListState {
    const projects: seq<Project>
    var deletingId: Option<string>

    /** The list as currently rendered. */
    function View(): (v: ListView)
      reads this
      ensures |v.rows| == |projects|
    {
      Render(projects, deletingId)
    }

    constructor (projects: seq<Project>)
      ensures this.projects == projects && deletingId == None
    {
      this.projects := projects;
      deletingId := None;
    }

    /** `handleDelete(id)` up to its `await`: unless the confirmation dialog is
        accepted nothing happens; otherwise `deletingId` becomes `id` and the
        server action is called. While `deletingId` is `id` the row's button
        is disabled (project-list.tsx:111), so no click reaches the handler. */
    method BeginDelete(id: string, confirmed: bool) returns (call: Option<DeleteCall>)
      requires deletingId != Some(id)
      modifies this
      ensures confirmed ==> deletingId == Some(id) && call == Some(DeleteCall(id))
      ensures !confirmed ==> deletingId == old(deletingId) && call == None
    {
      if confirmed {
        deletingId := Some(id);
        call := Some(DeleteCall(id));
      } else {
        call := None;
      }
    }

    /** The rest of `handleDelete`: when the call returns, `deletingId` is
        cleared, whichever delete it was; when it throws, the reset is
        skipped (there is no `finally`) and the marker stays. */
    method FinishDelete(succeeded: bool)
      modifies this
      ensures succeeded ==> deletingId == None
      ensures !succeeded ==> deletingId == old(deletingId)
    {
      if succeeded {
        deletingId := None;
      }
    }
  }

  /** A delete that throws leaves its row's button disabled, captioned
      "Deleting...", until the page is reloaded. */
  method FailedDeleteLeavesRowDisabled(p: Project) returns (row: Row)
    ensures row.deleteDisabled && row.deleteCaption == "Deleting..."
  {
    var list := new ProjectListState([p]);
    var call := list.BeginDelete(p.id, true);
    list.FinishDelete(false);
    row := list.View().rows[0];
  }

  /** Two overlapping deletes: when the first returns it clears the marker, so
      the second row's button is enabled again although its delete is still
      under way. */
  method OverlappingDeletes(a: Project, b: Project) returns (rowB: Row)
    requires a.id != b.id
    ensures !rowB.deleteDisabled && rowB.deleteCaption == "Delete"
  {
    var list := new ProjectListState([a, b]);
    var first := list.BeginDelete(a.id, true);
    var second := list.BeginDelete(b.id, true);
    list.FinishDelete(true);
    rowB := list.View().rows[1];
  }

  /** A cancelled confirmation changes nothing. */
  method CancelledDeleteChangesNothing(p: Project) returns (row: Row, call: Option<DeleteCall>)
    ensures call == None && !row.deleteDisabled
  {
    var list := new ProjectListState([p]);
    call := list.BeginDelete(p.id, false);
    row := list.View().rows[0];
  }
}
