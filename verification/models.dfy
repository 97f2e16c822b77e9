/** The request and response records of backend/models.py. Field validation
    (required fields, e-mail syntax) is not modelled: every value here is a
    well-formed record. */
module Models {
  import opened Wrappers

  /** One contribution program. `programType`, `opensIn` and `tags` carry the
      defaults the record declares. */
  datatype Program = Program(
    id: int,
    name: string,
    slug: string,
    difficulty: string,
    programType: string := "Open Source",
    timeline: string,
    opensIn: string := "",
    deadline: string,
    description: string,
    officialSite: string,
    tags: seq<string> := []
  )

  /** Body of `POST /agent-chat`. */
  datatype AgentQuery = AgentQuery(message: string, difficultyFilter: Option<string> := None)

  /** Answer of `POST /agent-chat`. */
  datatype AgentResponse = AgentResponse(reply: string, suggestedPrograms: seq<Program>)
}
