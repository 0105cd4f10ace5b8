/**
 * The `projectType` and `projectStatus` select fields of the Projects
 * collection: their option lists, their defaults, and how a stored value is
 * read back as one of the options.
 */
module ProjectsCollection {
  import opened Optional

  datatype ProjectType = Venture | Agency

  datatype ProjectStatus = Active | Completed | InDevelopment | ProofOfConcept

  /** One entry of a select field's `options`: the label shown and the stored value. */
  datatype SelectOption = SelectOption(title: string, value: string)

  const ProjectTypeOptions: seq<SelectOption> := [
    SelectOption("Venture Studio", "venture"),
    SelectOption("Agency Work", "agency")
  ]

  const ProjectStatusOptions: seq<SelectOption> := [
    SelectOption("Active", "active"),
    SelectOption("Completed", "completed"),
    SelectOption("In Development", "in-development"),
    SelectOption("Proof of Concept", "proof-of-concept")
  ]

  const DefaultProjectType := Agency

  const DefaultProjectStatus := Active

  /** The value stored for each project type. */
  function ProjectTypeValue(t: ProjectType): (v: string)
    ensures exists o :: o in ProjectTypeOptions && o.value == v
  {
    match t
    case Venture => assert ProjectTypeOptions[0].value == "venture"; "venture"
    case Agency => assert ProjectTypeOptions[1].value == "agency"; "agency"
  }

  /** The value stored for each project status. */
  function ProjectStatusValue(s: ProjectStatus): (v: string)
    ensures exists o :: o in ProjectStatusOptions && o.value == v
  {
    match s
    case Active => assert ProjectStatusOptions[0].value == "active"; "active"
    case Completed => assert ProjectStatusOptions[1].value == "completed"; "completed"
    case InDevelopment => assert ProjectStatusOptions[2].value == "in-development"; "in-development"
    case ProofOfConcept => assert ProjectStatusOptions[3].value == "proof-of-concept"; "proof-of-concept"
  }

  /** Reads a stored `projectType`; a value outside the options is not a project type. */
  function ParseProjectType(v: string): (t: Option<ProjectType>)
    ensures t.Some? <==> exists o :: o in ProjectTypeOptions && o.value == v
  {
    if v == "venture" then Some(Venture)
    else if v == "agency" then Some(Agency)
    else None
  }

  /** Reads a stored `projectStatus`; a value outside the options is not a status. */
  function ParseProjectStatus(v: string): (s: Option<ProjectStatus>)
    ensures s.Some? <==> exists o :: o in ProjectStatusOptions && o.value == v
  {
    if v == "active" then Some(Active)
    else if v == "completed" then Some(Completed)
    else if v == "in-development" then Some(InDevelopment)
    else if v == "proof-of-concept" then Some(ProofOfConcept)
    else None
  }

  /** Stored project types read back as themselves, and only their own value does. */
  lemma ProjectTypeRoundTrip(t: ProjectType, v: string)
    ensures ParseProjectType(ProjectTypeValue(t)) == Some(t)
    ensures ParseProjectType(v) == Some(t) ==> ProjectTypeValue(t) == v
  {
  }

  /** Stored statuses read back as themselves, and only their own value does. */
  lemma ProjectStatusRoundTrip(s: ProjectStatus, v: string)
    ensures ParseProjectStatus(ProjectStatusValue(s)) == Some(s)
    ensures ParseProjectStatus(v) == Some(s) ==> ProjectStatusValue(s) == v
  {
  }

  /** A required select with a default: a missing value takes the default on create. */
  function ResolveProjectType(input: Option<string>): (t: Option<ProjectType>)
    ensures input.None? ==> t == Some(Agency) && ProjectTypeValue(t.value) == "agency"
    ensures input.Some? ==> (t.Some? <==> exists o :: o in ProjectTypeOptions && o.value == input.value)
  {
    if input.None? then Some(DefaultProjectType) else ParseProjectType(input.value)
  }

  /** A required select with a default: a missing value takes the default on create. */
  function ResolveProjectStatus(input: Option<string>): (s: Option<ProjectStatus>)
    ensures input.None? ==> s == Some(Active) && ProjectStatusValue(s.value) == "active"
    ensures input.Some? ==> (s.Some? <==> exists o :: o in ProjectStatusOptions && o.value == input.value)
  {
    if input.None? then Some(DefaultProjectStatus) else ParseProjectStatus(input.value)
  }

  /** Every option of each list is the value of exactly one project type or status. */
  lemma OptionsAreTheDomains()
    ensures forall k :: 0 <= k < |ProjectTypeOptions| ==> ParseProjectType(ProjectTypeOptions[k].value).Some?
    ensures forall k :: 0 <= k < |ProjectStatusOptions| ==> ParseProjectStatus(ProjectStatusOptions[k].value).Some?
    ensures forall j, k :: 0 <= j < k < |ProjectTypeOptions| ==> ProjectTypeOptions[j].value != ProjectTypeOptions[k].value
    ensures forall j, k :: 0 <= j < k < |ProjectStatusOptions| ==> ProjectStatusOptions[j].value != ProjectStatusOptions[k].value
  {
  }
}
