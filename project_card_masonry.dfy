/** The tall card of the masonry grid page: the shared card face, a height
    that cycles with the card's position, and the category badge. */
module ProjectCardMasonry {
  import opened Projects
  import opened CardParts

  /** The height classes the cards cycle through. */
  const HEIGHTS: seq<string> := ["h-64", "h-80", "h-72", "h-96", "h-64"]

  /** `heights[index % heights.length]`. */
  function HeightClass(index: nat): (h: string)
    ensures h in HEIGHTS
  {
    HEIGHTS[index % |HEIGHTS|]
  }

  /** Positions that agree modulo five get the same height. */
  lemma HeightRepeats(i: nat, j: nat)
    requires i % 5 == j % 5
    ensures HeightClass(i) == HeightClass(j)
  {
  }

  /** The cycle starts and ends on the same class, so the fifth card of a cycle
      and the first card of the next one are equally tall. */
  lemma HeightCycleSeam(m: nat)
    ensures HeightClass(5 * m + 4) == HeightClass(5 * m + 5)
  {
    assert (5 * m + 4) % 5 == 4;
    assert (5 * m + 5) % 5 == 0;
  }

  /** A card. */
  datatype Card = Card(face: CardFace, height: string, category: string)

  /** `ProjectCardMasonry` for the project at `index` of the filtered list. */
  function View(p: Project, index: nat): (c: Card)
    ensures c.face == Face(p) && c.category == p.category
    ensures c.height == HeightClass(index) && c.height in HEIGHTS
  {
    Card(Face(p), HeightClass(index), p.category)
  }
}
