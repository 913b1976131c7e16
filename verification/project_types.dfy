/** The closed set of frameworks a project can be generated for. */
module ProjectTypes {
  import opened Wrappers

  datatype ProjectType = Laravel | Flutter | Node

  /** The command-line spelling of each type. */
  function TypeName(t: ProjectType): string
  {
    match t
    case Laravel => "laravel"
    case Flutter => "flutter"
    case Node => "node"
  }

  /** Reads a command-line type argument; anything but an exact spelling is unknown. */
  function ParseType(s: string): (r: Option<ProjectType>)
    ensures r.Some? ==> TypeName(r.value) == s
  {
    if s == "laravel" then Some(Laravel)
    else if s == "flutter" then Some(Flutter)
    else if s == "node" then Some(Node)
    else None
  }

  /** Parsing and spelling are inverse: every type is recognised from its own name and only from it. */
  lemma ParseTypeRoundTrip(t: ProjectType, s: string)
    ensures ParseType(TypeName(t)) == Some(t)
    ensures ParseType(s) == Some(t) <==> s == TypeName(t)
  {
  }
}
