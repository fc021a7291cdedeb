/** The grid card of the portfolio page: the shared card face plus the two
    action buttons. */
module ProjectCard {
  import opened Wrappers
  import opened Projects
  import opened CardParts

  /** A card. A button is present with the address `window.open` receives. */
  datatype Card = Card(face: CardFace, demoButton: Option<string>, githubButton: Option<string>)

  /** `ProjectCard`. The "View Demo" button is rendered only for a truthy
      `demoUrl`, the "GitHub" button only for a truthy `githubUrl`; each opens
      its own address. */
  function View(p: Project): (c: Card)
    ensures c.face == Face(p)
    ensures c.demoButton.Some? <==> Truthy(p.demoUrl)
    ensures c.githubButton.Some? <==> Truthy(p.githubUrl)
    ensures c.demoButton.Some? ==> c.demoButton == p.demoUrl && c.demoButton.value != ""
    ensures c.githubButton.Some? ==> c.githubButton == p.githubUrl && c.githubButton.value != ""
  {
    Card(Face(p),
         if Truthy(p.demoUrl) then p.demoUrl else None,
         if Truthy(p.githubUrl) then p.githubUrl else None)
  }

  /** A link stored as the empty string, which the form never produces but the
      database allows, shows no button, exactly like a missing one. */
  lemma EmptyLinkShowsNoButton(p: Project)
    requires p.demoUrl == Some("") && p.githubUrl == None
    ensures View(p).demoButton == None && View(p).githubButton == None
  {
  }
}
