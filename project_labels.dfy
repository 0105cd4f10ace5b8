/** The display labels of project types and statuses. */
module ProjectLabels {
  import opened ProjectsCollection

  /** `getProjectTypeLabel`: the label of the matching `projectType` option. */
  function GetProjectTypeLabel(t: ProjectType): (text: string)
    ensures SelectOption(text, ProjectTypeValue(t)) in ProjectTypeOptions
  {
    match t
    case Venture => "Venture Studio"
    case Agency => "Agency Work"
  }

  /** `getProjectStatusLabel`: the label of the matching `projectStatus` option. */
  function GetProjectStatusLabel(s: ProjectStatus): (text: string)
    ensures SelectOption(text, ProjectStatusValue(s)) in ProjectStatusOptions
  {
    match s
    case Active => "Active"
    case Completed => "Completed"
    case InDevelopment => "In Development"
    case ProofOfConcept => "Proof of Concept"
  }

  /** Distinct project types have distinct labels. */
  lemma ProjectTypeLabelInjective(a: ProjectType, b: ProjectType)
    ensures GetProjectTypeLabel(a) == GetProjectTypeLabel(b) <==> a == b
  {
  }

  /** Distinct statuses have distinct labels. */
  lemma ProjectStatusLabelInjective(a: ProjectStatus, b: ProjectStatus)
    ensures GetProjectStatusLabel(a) == GetProjectStatusLabel(b) <==> a == b
  {
  }
}
