/** The interleaved masonry grid: the filtered projects with an accent block
    after every third one, the block taken cyclically from a table of five. */
module MasonryGrid {
  import opened Projects
  import opened Catalog
  import CardParts
  import MasonryProjectCard

  /** An accent tile: a keyword, or a figure with a caption. */
  datatype AccentBlock =
    | Keyword(text: string, gradient: string)
    | Stat(text: string, subtitle: string, gradient: string)

  /** The table the accents are drawn from, in order. */
  const ACCENT_BLOCKS: seq<AccentBlock> := [
    Keyword("AI", "from-blue-600 to-purple-600"),
    Keyword("Automation", "from-purple-600 to-pink-600"),
    Keyword("Innovation", "from-pink-600 to-red-600"),
    Keyword("Agents", "from-cyan-600 to-blue-600"),
    Stat("10+", "Projects Built", "from-green-600 to-emerald-600")
  ]

  /** One element of the mixed content: a project with its position in the
      filtered list, or an accent placed after the project at position
      `after` (the source records that as the number `after + 0.5`). */
  datatype MixedItem =
    | ProjectItem(project: Project, index: nat)
    | AccentItem(block: AccentBlock, after: nat)

  /** Whether an accent follows the project at position `i`. */
  predicate AccentFollows(i: nat)
  {
    (i + 1) % 3 == 0
  }

  /** The accent placed after the project at position `i`. */
  function AccentAfter(i: nat): (b: AccentBlock)
    ensures b in ACCENT_BLOCKS
  {
    ACCENT_BLOCKS[(i / 3) % |ACCENT_BLOCKS|]
  }

  /** What one iteration of the loop appends for the project at position `i`. */
  function Step(p: Project, i: nat): (items: seq<MixedItem>)
    ensures |items| == if AccentFollows(i) then 2 else 1
    ensures items[0] == ProjectItem(p, i)
    ensures |items| == 2 ==> items[1] == AccentItem(AccentAfter(i), i)
  {
    [ProjectItem(p, i)] + if AccentFollows(i) then [AccentItem(AccentAfter(i), i)] else []
  }

  /** The mixed content of a filtered list, one step per project. */
  function Mixed(ps: seq<Project>): (items: seq<MixedItem>)
    ensures |items| == |ps| + |ps| / 3
    decreases |ps|
  {
    if |ps| == 0 then [] else Mixed(ps[..|ps| - 1]) + Step(ps[|ps| - 1], |ps| - 1)
  }

  /** `createMixedContent`: the loop over the filtered projects. The table
      lookup in its guard never fails, since the index is reduced modulo the
      table's length; the result is the specification `Mixed`. */
  method CreateMixedContent(filtered: seq<Project>) returns (mixed: seq<MixedItem>)
    ensures mixed == Mixed(filtered)
  {
    mixed := [];
    var index := 0;
    while index < |filtered|
      invariant 0 <= index <= |filtered|
      invariant mixed == Mixed(filtered[..index])
    {
      mixed := mixed + [ProjectItem(filtered[index], index)];
      var k := (index / 3) % |ACCENT_BLOCKS|;
      if (index + 1) % 3 == 0 && k < |ACCENT_BLOCKS| {
        mixed := mixed + [AccentItem(ACCENT_BLOCKS[k], index)];
      }
      assert filtered[..index + 1][..index] == filtered[..index];
      index := index + 1;
    }
    assert filtered[..index] == filtered;
  }

  /** The projects of a mixed list, in order. */
  function ProjectsOf(items: seq<MixedItem>): (ps: seq<Project>)
    ensures |ps| <= |items|
  {
    if |items| == 0 then []
    else
      var last := items[|items| - 1];
      ProjectsOf(items[..|items| - 1]) + if last.ProjectItem? then [last.project] else []
  }

  lemma {:induction false} ProjectsOfAppend(a: seq<MixedItem>, b: seq<MixedItem>)
    ensures ProjectsOf(a + b) == ProjectsOf(a) + ProjectsOf(b)
    decreases |b|
  {
    if |b| > 0 {
      assert (a + b)[..|a + b| - 1] == a + b[..|b| - 1];
      ProjectsOfAppend(a, b[..|b| - 1]);
    } else {
      assert a + b == a;
    }
  }

  /** One step contributes exactly its project. */
  lemma ProjectsOfStep(p: Project, i: nat)
    ensures ProjectsOf(Step(p, i)) == [p]
  {
    var s := Step(p, i);
    assert ProjectsOf([ProjectItem(p, i)]) == [p];
    if AccentFollows(i) {
      assert s[..1] == [ProjectItem(p, i)];
    }
  }

  /** Dropping the accents gives back the filtered projects, in order. */
  lemma {:induction false} ProjectsOfMixed(ps: seq<Project>)
    ensures ProjectsOf(Mixed(ps)) == ps
    decreases |ps|
  {
    if |ps| > 0 {
      var n := |ps| - 1;
      ProjectsOfMixed(ps[..n]);
      ProjectsOfAppend(Mixed(ps[..n]), Step(ps[n], n));
      ProjectsOfStep(ps[n], n);
      assert ps[..n] + [ps[n]] == ps;
    }
  }

  /** Where everything sits: `n + n / 3` items, the project at position `i`
      at `i + i / 3`, and right behind it the accent `AccentAfter(i)` exactly
      when `AccentFollows(i)`. */
  lemma {:induction false} MixedLayout(ps: seq<Project>)
    ensures |Mixed(ps)| == |ps| + |ps| / 3
    ensures forall i :: 0 <= i < |ps| ==> Mixed(ps)[i + i / 3] == ProjectItem(ps[i], i)
    ensures forall i :: 0 <= i < |ps| && AccentFollows(i) ==>
      i + i / 3 + 1 < |Mixed(ps)| && Mixed(ps)[i + i / 3 + 1] == AccentItem(AccentAfter(i), i)
    decreases |ps|
  {
    if |ps| > 0 {
      var n := |ps| - 1;
      var init := ps[..n];
      MixedLayout(init);
      var m := Mixed(ps);
      var prev := Mixed(init);
      assert m == prev + Step(ps[n], n);
      assert |prev| == n + n / 3;
      forall i | 0 <= i < |ps| ensures m[i + i / 3] == ProjectItem(ps[i], i) {
        if i < n {
          assert init[i] == ps[i];
        }
      }
      forall i | 0 <= i < |ps| && AccentFollows(i)
        ensures i + i / 3 + 1 < |m| && m[i + i / 3 + 1] == AccentItem(AccentAfter(i), i)
      {
        if i < n {
          assert init[i] == ps[i];
        }
      }
    }
  }

  /** Behind a project that no accent follows comes the next project. */
  lemma NextProjectFollows(ps: seq<Project>, i: nat)
    requires i + 1 < |ps| && !AccentFollows(i)
    ensures i + i / 3 + 1 < |Mixed(ps)| && Mixed(ps)[i + i / 3 + 1] == ProjectItem(ps[i + 1], i + 1)
  {
    MixedLayout(ps);
    assert (i + 1) / 3 == i / 3;
  }

  /** The number of accents is `n / 3`. */
  lemma AccentCount(ps: seq<Project>)
    ensures |Mixed(ps)| - |ProjectsOf(Mixed(ps))| == |ps| / 3
  {
    MixedLayout(ps);
    ProjectsOfMixed(ps);
  }

  /** No two accents are neighbours. */
  predicate NoAdjacentAccents(items: seq<MixedItem>)
  {
    forall k :: 0 <= k < |items| - 1 ==> !(items[k].AccentItem? && items[k + 1].AccentItem?)
  }

  /** The mixed content never starts with an accent and never has two accents
      side by side. */
  lemma {:induction false} AccentsAreSeparated(ps: seq<Project>)
    ensures |Mixed(ps)| > 0 ==> Mixed(ps)[0].ProjectItem?
    ensures NoAdjacentAccents(Mixed(ps))
    decreases |ps|
  {
    if |ps| > 0 {
      var n := |ps| - 1;
      AccentsAreSeparated(ps[..n]);
      var prev := Mixed(ps[..n]);
      var s := Step(ps[n], n);
      assert Mixed(ps) == prev + s;
      assert s[0].ProjectItem?;
      assert NoAdjacentAccents(s);
      var m := prev + s;
      forall k | 0 <= k < |m| - 1 ensures !(m[k].AccentItem? && m[k + 1].AccentItem?) {
        if k + 1 == |prev| {
          assert m[k + 1] == s[0];
        } else if k >= |prev| {
          assert m[k] == s[k - |prev|] && m[k + 1] == s[k + 1 - |prev|];
        } else {
          assert m[k] == prev[k] && m[k + 1] == prev[k + 1];
        }
      }
    }
  }

  /** A tile of the rendered grid. */
  datatype Tile = ProjectTile(face: CardParts.CardFace) | AccentTile(block: AccentBlock)

  /** The tile rendered for the item at `position` of the mixed content: the
      card receives that position as its `index` and no `variant`. */
  function TileOf(item: MixedItem, position: nat): (t: Tile)
    ensures item.ProjectItem? ==> t == ProjectTile(CardParts.Face(item.project))
    ensures item.AccentItem? ==> t == AccentTile(item.block)
  {
    match item
    case ProjectItem(p, _) => ProjectTile(MasonryProjectCard.View(p, position, ""))
    case AccentItem(b, _) => AccentTile(b)
  }

  /** `MasonryGrid` under the filter `filter`: the tiles of the mixed content,
      or the "No projects in this category yet." message when it is empty. */
  function Render(ps: seq<Project>, filter: string): (v: GridView<Tile>)
    ensures v == NoProjectsMessage <==> FilterProjects(ps, filter) == []
    ensures v.Items? ==> |v.items| == |FilterProjects(ps, filter)| + |FilterProjects(ps, filter)| / 3
    ensures v.Items? ==> |v.items| == |Mixed(FilterProjects(ps, filter))|
    ensures v.Items? ==> forall k :: 0 <= k < |v.items| ==> v.items[k] == TileOf(Mixed(FilterProjects(ps, filter))[k], k)
  {
    var filtered := FilterProjects(ps, filter);
    var mixed := Mixed(filtered);
    MixedLayout(filtered);
    if |mixed| > 0 then Items(seq(|mixed|, k requires 0 <= k < |mixed| => TileOf(mixed[k], k)))
    else NoProjectsMessage
  }

  /** With the `'all'` filter the grid starts with the first project's card. */
  lemma FirstTileIsFirstProject(ps: seq<Project>)
    requires |ps| > 0
    ensures Render(ps, ALL).Items? && Render(ps, ALL).items[0] == ProjectTile(CardParts.Face(ps[0]))
  {
    MixedLayout(ps);
  }
}
