/** The helpers the agent builds on: skill extraction from a resume through the
    completion service, skill collection from a user's public repositories, and
    the static table of role requirements. */
module Utils {
  import opened Values
  import opened PyStr
  import opened Quoted

  // ---------------------------------------------------------------------------
  // extract_skills_with_llm
  // ---------------------------------------------------------------------------

  /** How much of the resume goes into the prompt (`text[:2000]`). */
  const PromptBudget: nat := 2000

  /** The part of the resume placed in the prompt: its first `PromptBudget` characters. */
  function Excerpt(text: string): (r: string)
    ensures |r| == if |text| <= PromptBudget then |text| else PromptBudget
    ensures r == text[..|r|]
  {
    if |text| <= PromptBudget then text else text[..PromptBudget]
  }

  /** `content.startswith('[') and content.endswith(']')` */
  predicate IsBracketed(content: string)
    ensures IsBracketed(content) <==>
      |content| >= 1 && content[..1] == "[" && content[|content| - 1..] == "]"
  {
    |content| > 0 && content[0] == '[' && content[|content| - 1] == ']'
  }

  /** What the reply handling makes of the completion: a bracketed reply is decoded as
      a JSON list, any other reply yields the quoted substrings from left to right, and a
      failed request or an undecodable list yields nothing. */
  function SkillsFromReply(reply: Completion, parse: Parser): (r: seq<Json>)
    ensures reply.Failed? ==> r == []
    ensures reply.Responded? && !IsBracketed(Strip(reply.text)) ==>
      forall k :: 0 <= k < |r| ==> r[k].JString? && '"' !in r[k].s && '\n' !in r[k].s
    ensures reply.Responded? && IsBracketed(Strip(reply.text)) ==>
      var p := parse(Strip(reply.text));
      r == if p.Parsed? && p.value.JArray? then p.value.items else []
  {
    match reply
    case Failed(_) => []
    case Responded(text) =>
      var content := Strip(text);
      if IsBracketed(content) then
        match parse(content)
        case Parsed(JArray(items)) => items
        case _ => []
      else
        Strings(FindQuoted(content))
  }

  /** `extract_skills_with_llm(text, api_key)`: a blank text gives no skills and issues no
      request; otherwise exactly one completion request is made, carrying the excerpt. */
  function ExtractSkillsWithLlm(text: string, reply: Completion, parse: Parser): (r: Traced<seq<Json>>)
    ensures IsBlank(text) ==> r.value == [] && r.calls == []
    ensures !IsBlank(text) ==> r.calls == [ResumeCompletion(Excerpt(text))]
    ensures reply.Failed? ==> r.value == []
  {
    if IsBlank(text) then Traced([], [])
    else Traced(SkillsFromReply(reply, parse), [ResumeCompletion(Excerpt(text))])
  }

  /** A reply that lists the skills as quoted strings outside brackets gives back exactly
      those skills, in order. */
  lemma QuotedReplyRecoversSkills(text: string, ws: seq<string>, parse: Parser)
    requires !IsBlank(text) && ws != []
    requires forall k :: 0 <= k < |ws| ==> '"' !in ws[k] && '\n' !in ws[k]
    ensures ExtractSkillsWithLlm(text, Responded(QuotedList(ws)), parse).value == Strings(ws)
  {
    var q := QuotedList(ws);
    QuotedListDelimited(ws);
    StripKeeps(q);
    UnbracketedReply(q, parse);
    FindQuotedOfQuotedList(ws);
  }

  /** A reply that is not bracketed once stripped is scanned for quoted strings. */
  lemma UnbracketedReply(text: string, parse: Parser)
    requires !IsBracketed(Strip(text))
    ensures SkillsFromReply(Responded(text), parse) == Strings(FindQuoted(Strip(text)))
  {
  }

  lemma {:induction false} QuotedListDelimited(ws: seq<string>)
    requires ws != []
    ensures var q := QuotedList(ws); |q| >= 2 && q[0] == '"' && q[|q| - 1] == '"'
  {
    if |ws| > 1 {
      QuotedListDelimited(ws[1..]);
    }
  }

  // ---------------------------------------------------------------------------
  // fetch_github_skills
  // ---------------------------------------------------------------------------

  /** The topics request for one repository: it raised, or it came back with a status
      code and, when read, the `names` list of its body (None when reading the body
      raises). */
  datatype TopicsReply = TopicsRaised | TopicsResponse(status: int, names: Option<seq<string>>)

  /** One element of the repository list: something that is not a JSON object (so
      `repo.get` raises), or a repository with its `language`, its `name` (None when the
      key is missing) and the reply its topics request would receive. */
  datatype Repo =
    | NotAnObject
    | Repo(language: Option<string>, name: Option<string>, topics: TopicsReply)

  /** The repository-list request: it raised, or it came back with a status code and,
      when read, the list of repositories (None when `resp.json()` raises). */
  datatype RepoListReply = ListRaised | ListResponse(status: int, repos: Option<seq<Repo>>)

  /** What one turn of the repository loop does: the skills it adds, the requests it
      issues, and whether it finishes without raising. */
  datatype Step = Step(added: set<string>, calls: seq<Call>, ok: bool)

  /** One turn of the loop: add the language when it is non-empty, then ask for the topics
      and add them when the response status is 200. A missing name, a raised request or an
      unreadable body stops the loop, after whatever was added before it. */
  function Visit(user: string, repo: Repo): (st: Step)
    ensures forall x :: x in st.added ==> Contributes(repo, x)
    ensures st.ok ==> forall x :: Contributes(repo, x) ==> x in st.added
    ensures st.ok ==> repo.Repo? && repo.name.Some? && st.calls == [ListTopics(user, repo.name.value)]
    ensures st.calls == [] || (repo.Repo? && repo.name.Some? && st.calls == [ListTopics(user, repo.name.value)])
  {
    match repo
    case NotAnObject => Step({}, [], false)
    case Repo(language, name, topics) =>
      var lang := if language.Some? && language.value != "" then {language.value} else {};
      match name
      case None => Step(lang, [], false)
      case Some(n) =>
        var call := [ListTopics(user, n)];
        match topics
        case TopicsRaised => Step(lang, call, false)
        case TopicsResponse(status, names) =>
          if status != 200 then Step(lang, call, true)
          else match names
            case None => Step(lang, call, false)
            case Some(ns) => Step(lang + (set t | t in ns), call, true)
  }

  /** The skills and requests of the loop over `repos`, up to and including the first
      turn that raises. */
  function Harvest(user: string, repos: seq<Repo>): (r: Traced<set<string>>)
    ensures |r.calls| <= |repos|
    ensures forall k :: 0 <= k < |r.calls| ==> r.calls[k].ListTopics? && r.calls[k].user == user
  {
    if repos == [] then Traced({}, [])
    else
      var st := Visit(user, repos[0]);
      if !st.ok then Traced(st.added, st.calls)
      else
        var rest := Harvest(user, repos[1..]);
        Traced(st.added + rest.value, st.calls + rest.calls)
  }

  /** `fetch_github_skills(username)`: one request for the repository list, then the loop;
      a raised list request, a status other than 200 or an unreadable list gives no skills. */
  function GithubSkills(user: string, reply: RepoListReply): (r: Traced<set<string>>)
    ensures |r.calls| >= 1 && r.calls[0] == ListRepos(user)
    ensures (reply.ListRaised? || reply.status != 200 || reply.repos.None?) ==>
      r == Traced({}, [ListRepos(user)])
    ensures reply.ListResponse? && reply.status == 200 && reply.repos.Some? ==>
      r == Traced(Harvest(user, reply.repos.value).value,
                  [ListRepos(user)] + Harvest(user, reply.repos.value).calls)
  {
    match reply
    case ListRaised => Traced({}, [ListRepos(user)])
    case ListResponse(status, repos) =>
      if status != 200 || repos.None? then Traced({}, [ListRepos(user)])
      else
        var h := Harvest(user, repos.value);
        Traced(h.value, [ListRepos(user)] + h.calls)
  }

  /** The loop itself, adding to a mutable set as it goes and stopping at the first turn
      that raises, with what it collected so far. */
  method FetchGithubSkills(user: string, reply: RepoListReply)
    returns (skills: set<string>, calls: seq<Call>)
    ensures Traced(skills, calls) == GithubSkills(user, reply)
  {
    skills := {};
    calls := [ListRepos(user)];
    if reply.ListRaised? || reply.status != 200 || reply.repos.None? {
      return;
    }
    var repos := reply.repos.value;
    ghost var total := Harvest(user, repos);
    var trail: seq<Call> := [];
    var i := 0;
    var raised := false;
    assert repos[0..] == repos;
    assert trail + total.calls == total.calls && skills + total.value == total.value;
    while i < |repos| && !raised
      invariant 0 <= i <= |repos|
      invariant !raised ==>
        total == Traced(skills + Harvest(user, repos[i..]).value, trail + Harvest(user, repos[i..]).calls)
      invariant raised ==> total == Traced(skills, trail)
      decreases |repos| - i
    {
      HarvestUnfold(user, repos, i);
      ghost var st := Visit(user, repos[i]);
      ghost var skills0, trail0 := skills, trail;
      match repos[i] {
      case NotAnObject =>
        raised := true;
      case Repo(language, name, topics) =>
        if language.Some? && language.value != "" {
          skills := skills + {language.value};
        }
        if name.None? {
          raised := true;
        } else {
          trail := trail + [ListTopics(user, name.value)];
          if topics.TopicsRaised? {
            raised := true;
          } else if topics.status == 200 {
            if topics.names.None? {
              raised := true;
            } else {
              skills := skills + (set t | t in topics.names.value);
            }
          }
        }
      }
      assert skills == skills0 + st.added && trail == trail0 + st.calls && raised == !st.ok;
      StepAdvances(total, skills0, trail0, st, Harvest(user, repos[i + 1..]));
      i := i + 1;
    }
    calls := calls + trail;
  }

  /** One turn of the loop peeled off the front of the remaining repositories. */
  lemma HarvestUnfold(user: string, repos: seq<Repo>, i: nat)
    requires i < |repos|
    ensures var st := Visit(user, repos[i]);
      var rest := Harvest(user, repos[i + 1..]);
      Harvest(user, repos[i..]) ==
        if !st.ok then Traced(st.added, st.calls)
        else Traced(st.added + rest.value, st.calls + rest.calls)
  {
    assert repos[i..][0] == repos[i] && repos[i..][1..] == repos[i + 1..];
  }

  /** Moving one turn's additions from the remaining loop into the accumulators keeps the
      overall result. */
  lemma StepAdvances(total: Traced<set<string>>, skills: set<string>, trail: seq<Call>,
                     st: Step, rest: Traced<set<string>>)
    requires var here := if !st.ok then Traced(st.added, st.calls)
                         else Traced(st.added + rest.value, st.calls + rest.calls);
      total == Traced(skills + here.value, trail + here.calls)
    ensures st.ok ==>
      total == Traced((skills + st.added) + rest.value, (trail + st.calls) + rest.calls)
    ensures !st.ok ==> total == Traced(skills + st.added, trail + st.calls)
  {
    if st.ok {
      assert trail + (st.calls + rest.calls) == (trail + st.calls) + rest.calls;
      assert skills + (st.added + rest.value) == (skills + st.added) + rest.value;
    }
  }

  /** Request k of the loop is the topics request for repository k: the loop issues at most
      one request per repository, in repository order. */
  lemma {:induction false} HarvestRequestsNameRepos(user: string, repos: seq<Repo>)
    ensures forall k :: 0 <= k < |Harvest(user, repos).calls| ==>
      repos[k].Repo? && repos[k].name.Some? &&
      Harvest(user, repos).calls[k] == ListTopics(user, repos[k].name.value)
  {
    if repos != [] && Visit(user, repos[0]).ok {
      HarvestRequestsNameRepos(user, repos[1..]);
      var h := Harvest(user, repos);
      forall k | 0 <= k < |h.calls|
        ensures repos[k].Repo? && repos[k].name.Some? &&
          h.calls[k] == ListTopics(user, repos[k].name.value)
      {
        if k > 0 {
          assert repos[1..][k - 1] == repos[k];
        }
      }
    }
  }

  /** No turn of the loop raises. */
  ghost predicate RunsThrough(user: string, repos: seq<Repo>)
  {
    forall j :: 0 <= j < |repos| ==> Visit(user, repos[j]).ok
  }

  /** `x` is a skill repository `repo` can contribute: its non-empty language, or a topic
      name from a topics response with status 200. */
  ghost predicate Contributes(repo: Repo, x: string)
  {
    repo.Repo? &&
    ((repo.language == Some(x) && x != "") ||
     (repo.name.Some? && repo.topics.TopicsResponse? && repo.topics.status == 200 &&
      repo.topics.names.Some? && x in repo.topics.names.value))
  }

  /** Every collected skill is a language or a topic name of some repository, and topic
      names come only from responses with status 200. */
  lemma {:induction false} HarvestOnlyFromRepos(user: string, repos: seq<Repo>, x: string)
    requires x in Harvest(user, repos).value
    ensures exists j :: 0 <= j < |repos| && Contributes(repos[j], x)
  {
    var st := Visit(user, repos[0]);
    if x in st.added {
      assert Contributes(repos[0], x);
    } else {
      HarvestOnlyFromRepos(user, repos[1..], x);
      var j :| 0 <= j < |repos[1..]| && Contributes(repos[1..][j], x);
      assert Contributes(repos[j + 1], x);
    }
  }

  /** When no turn raises, every repository's non-empty language and every topic name
      from a response with status 200 is collected, and exactly one topics request is
      issued per repository, naming that repository, in order. */
  lemma {:induction false} HarvestCollectsAll(user: string, repos: seq<Repo>)
    requires RunsThrough(user, repos)
    ensures forall j, x :: 0 <= j < |repos| && Contributes(repos[j], x) ==>
      x in Harvest(user, repos).value
    ensures |Harvest(user, repos).calls| == |repos|
    ensures forall j :: 0 <= j < |repos| ==>
      repos[j].Repo? && repos[j].name.Some? &&
      Harvest(user, repos).calls[j] == ListTopics(user, repos[j].name.value)
  {
    if repos != [] {
      assert RunsThrough(user, repos[1..]) by {
        forall j | 0 <= j < |repos[1..]| ensures Visit(user, repos[1..][j]).ok {
          assert repos[1..][j] == repos[j + 1];
        }
      }
      HarvestCollectsAll(user, repos[1..]);
      forall j, x | 0 <= j < |repos| && Contributes(repos[j], x)
        ensures x in Harvest(user, repos).value
      {
        if j > 0 {
          assert repos[1..][j - 1] == repos[j];
        }
      }
      forall j | 0 <= j < |repos|
        ensures repos[j].Repo? && repos[j].name.Some? &&
          Harvest(user, repos).calls[j] == ListTopics(user, repos[j].name.value)
      {
        assert Visit(user, repos[j]).ok;
        if j > 0 {
          assert repos[1..][j - 1] == repos[j];
        }
      }
    }
  }

  /** A turn that raises ends the loop: the result is what the earlier turns collected
      plus what the raising turn added before it raised, never an empty fallback. */
  lemma {:induction false} HarvestStopsAtFirstFault(user: string, repos: seq<Repo>, k: nat)
    requires k < |repos| && RunsThrough(user, repos[..k]) && !Visit(user, repos[k]).ok
    ensures Harvest(user, repos).value == Harvest(user, repos[..k]).value + Visit(user, repos[k]).added
    ensures Harvest(user, repos).calls == Harvest(user, repos[..k]).calls + Visit(user, repos[k]).calls
  {
    if k > 0 {
      assert Visit(user, repos[..k][0]).ok;
      assert repos[1..][..k - 1] == repos[..k][1..];
      var pre := repos[1..][..k - 1];
      assert RunsThrough(user, pre) by {
        forall j | 0 <= j < k - 1 ensures Visit(user, pre[j]).ok {
          assert pre[j] == repos[..k][j + 1];
        }
      }
      HarvestStopsAtFirstFault(user, repos[1..], k - 1);
    } else {
      assert repos[..k] == [];
    }
  }

  // ---------------------------------------------------------------------------
  // get_job_requirements
  // ---------------------------------------------------------------------------

  /** A role's description and its ordered list of required skills. */
  datatype RoleRequirement = RoleRequirement(description: string, skills: seq<string>)
  {
    /** The record as the dict `{"description": ..., "skills": [...]}`. */
    function ToJson(): (j: Json)
      ensures j.JObject? && j.fields.Keys == {"description", "skills"}
      ensures j.fields["description"] == JString(description)
      ensures j.fields["skills"] == JArray(Strings(skills))
    {
      JObject(map["description" := JString(description), "skills" := JArray(Strings(skills))])
    }
  }

  /** `{"description": "", "skills": []}` */
  const EmptyRequirement: RoleRequirement := RoleRequirement("", [])

  const DataScientist: RoleRequirement := RoleRequirement(
    "Analyze data, build models, deploy solutions.",
    ["Python", "SQL", "Machine Learning", "Statistics", "Pandas", "Scikit-learn",
     "TensorFlow", "Data Visualization", "Big Data", "Communication"])

  const FrontendDeveloper: RoleRequirement := RoleRequirement(
    "Build responsive web interfaces.",
    ["HTML", "CSS", "JavaScript", "React", "Responsive Design", "Version Control",
     "Web Performance", "Testing", "Browser DevTools", "APIs"])

  const BackendDeveloper: RoleRequirement := RoleRequirement(
    "Develop server-side logic, APIs, and databases.",
    ["Python", "Java", "Node.js", "SQL", "NoSQL", "REST APIs", "Docker",
     "Cloud Services", "Authentication", "Testing"])

  const DevOpsEngineer: RoleRequirement := RoleRequirement(
    "Manage infrastructure, CI/CD, and automation.",
    ["Linux", "Docker", "Kubernetes", "CI/CD", "Cloud (AWS/Azure/GCP)",
     "Infrastructure as Code", "Monitoring", "Scripting", "Networking", "Security"])

  const MachineLearningEngineer: RoleRequirement := RoleRequirement(
    "Build and deploy ML models.",
    ["Python", "Machine Learning", "Deep Learning", "TensorFlow/PyTorch", "SQL",
     "Data Processing", "Model Deployment", "MLOps", "Statistics", "Cloud ML"])

  /** The static table of the five known roles. */
  const KnownRoles: map<string, RoleRequirement> := map[
    "Data Scientist" := DataScientist,
    "Frontend Developer" := FrontendDeveloper,
    "Backend Developer" := BackendDeveloper,
    "DevOps Engineer" := DevOpsEngineer,
    "Machine Learning Engineer" := MachineLearningEngineer
  ]

  /** `get_job_requirements(role)`: the table entry for an exact key, otherwise the empty
      record. */
  function GetJobRequirements(role: string): (r: RoleRequirement)
    ensures role in KnownRoles ==> r == KnownRoles[role]
    ensures role !in KnownRoles ==> r == EmptyRequirement
  {
    if role in KnownRoles then KnownRoles[role] else EmptyRequirement
  }

  /** The table holds exactly five roles, each with ten skills, so a known role never
      looks empty to its caller. */
  lemma KnownRolesShape()
    ensures KnownRoles.Keys == {"Data Scientist", "Frontend Developer", "Backend Developer",
                                "DevOps Engineer", "Machine Learning Engineer"}
    ensures |KnownRoles| == 5
    ensures forall role :: role in KnownRoles ==> |KnownRoles[role].skills| == 10
  {
  }

  /** The lookup is by exact key: a different case or a trailing space is an unknown role. */
  lemma LookupIsExact()
    ensures GetJobRequirements("Data Scientist").skills != []
    ensures GetJobRequirements("data scientist") == EmptyRequirement
    ensures GetJobRequirements("Data Scientist ") == EmptyRequirement
  {
  }
}
