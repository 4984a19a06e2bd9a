/** Values that cross the navigator's boundaries: decoded JSON (what `json.loads`
    hands back), replies of the completion service, the record of upstream requests
    a stage issues, and the faults that escape a stage. */
module Values {

  datatype Option<T> = None | Some(value: T)

  /** A decoded JSON document as Python sees it after `json.loads`. */
  datatype Json =
    | JNull
    | JBool(b: bool)
    | JNumber(n: int)
    | JString(s: string)
    | JArray(items: seq<Json>)
    | JObject(fields: map<string, Json>)

  /** Python truthiness (`if v:` / `not v`). */
  predicate Truthy(v: Json)
  {
    match v
    case JNull => false
    case JBool(b) => b
    case JNumber(n) => n != 0
    case JString(s) => s != ""
    case JArray(items) => items != []
    case JObject(fields) => fields != map[]
  }

  /** Lists and dicts cannot be put into a Python `set`; everything else can. */
  predicate Hashable(v: Json)
  {
    !v.JArray? && !v.JObject?
  }

  /** `d.get(key, default)` on a dict. */
  function Get(fields: map<string, Json>, key: string, default: Json): (r: Json)
    ensures key in fields ==> r == fields[key]
    ensures key !in fields ==> r == default
  {
    if key in fields then fields[key] else default
  }

  /** A list of Python strings as JSON strings, in order. */
  function Strings(ws: seq<string>): (r: seq<Json>)
    ensures |r| == |ws|
    ensures forall i :: 0 <= i < |ws| ==> r[i] == JString(ws[i])
  {
    if ws == [] then [] else [JString(ws[0])] + Strings(ws[1..])
  }

  /** What `json.loads` does with a text: a value, or the message of the
      exception it raises. */
  datatype Parse = Parsed(value: Json) | Malformed(message: string)

  /** `json.loads`, left abstract: the model never looks inside it. */
  type Parser = string -> Parse

  /** One `ChatCompletion.create` call seen from the caller: the exception it
      raised (network, authentication, rate limit, missing content), or the
      text of the first choice. */
  datatype Completion = Failed(message: string) | Responded(text: string)

  /** An upstream request issued by the pipeline. */
  datatype Call =
    | ResumeCompletion(excerpt: string)      // the resume text placed in the prompt
    | RoleCompletion(role: string)
    | GapsCompletion
    | RoadmapCompletion(role: string)
    | ListRepos(user: string)                // GET /users/{user}/repos?per_page=100
    | ListTopics(user: string, repo: string) // GET /repos/{user}/{repo}/topics

  /** A stage's value together with the upstream requests it issued, in order. */
  datatype Traced<T> = Traced(value: T, calls: seq<Call>)

  /** The exceptions that no stage catches, so they reach the top-level handler. */
  datatype Fault =
    | UnhashableSkill          // `set.update` with a list or dict among the resume skills
    | RequirementsNotAnObject  // `job_req.get("skills", [])` on a non-dict
    | GapsNotAnObject          // `gaps.get('missing', [])` on a non-dict

  datatype Outcome<T> = Ok(value: T) | Raised(fault: Fault)
}
