/** The stored `Project` record and the payload the admin form submits. */
module Projects {
  import opened Wrappers

  /** The four values of the `ProjectStatus` enumeration, as the strings the
      components compare against. */
  const PLANNING: string := "PLANNING"
  const IN_PROGRESS: string := "IN_PROGRESS"
  const COMPLETED: string := "COMPLETED"
  const MAINTENANCE: string := "MAINTENANCE"

  /** A stored project. Optional links are `null` (here `None`) when absent. */
  datatype Project = Project(
    id: string,
    title: string,
    description: string,
    slug: string,
    status: string,
    techStack: seq<string>,
    why: string,
    features: seq<string>,
    imageUrl: Option<string>,
    demoUrl: Option<string>,
    githubUrl: Option<string>,
    category: string,
    isPublic: bool)

  /** The field set passed to `createProject` / `updateProject`; optional
      links are `undefined` (here `None`) when left out. */
  datatype ProjectInput = ProjectInput(
    title: string,
    description: string,
    slug: string,
    status: string,
    techStack: seq<string>,
    why: string,
    features: seq<string>,
    imageUrl: Option<string>,
    demoUrl: Option<string>,
    githubUrl: Option<string>,
    category: string,
    isPublic: bool)

  /** The editable fields of a stored project. */
  function FieldsOf(p: Project): ProjectInput
  {
    ProjectInput(p.title, p.description, p.slug, p.status, p.techStack, p.why, p.features,
                 p.imageUrl, p.demoUrl, p.githubUrl, p.category, p.isPublic)
  }

  /** JavaScript truthiness of an optional string: present and non-empty. */
  predicate Truthy(o: Option<string>)
  {
    o.Some? && o.value != ""
  }
}
