/** The image-first card of the interleaved masonry grid. Its `index` only
    delays its entrance animation and its declared `variant` prop is never
    read, so the content depends on the project alone. */
module MasonryProjectCard {
  import opened Projects
  import opened CardParts

  /** `MasonryProjectCard`: the shared card face. */
  function View(p: Project, index: nat, variant: string): (f: CardFace)
    ensures f == Face(p)
    ensures f.tech.overflow.Some? <==> |p.techStack| > CARD_TECH_LIMIT
  {
    Face(p)
  }

  /** Neither the position nor the variant changes what is shown. */
  lemma ContentIgnoresIndexAndVariant(p: Project, i: nat, j: nat, v: string, w: string)
    ensures View(p, i, v) == View(p, j, w)
  {
  }
}
