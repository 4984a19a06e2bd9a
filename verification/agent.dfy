/** The career-navigator agent: a four-stage pipeline (profile skills, role
    requirements, skill gaps, 30-day roadmap) in which every stage falls back to a
    fixed empty value on failure and only faults outside a stage's own handler reach
    the single top-level handler. */
module Agent {
  import opened Values
  import opened PyStr
  import opened Utils

  /** Everything the upstream services answer during one run. Prompts are not modelled,
      so each completion is given as the reply its stage receives. */
  datatype Upstream = Upstream(
    resumeReply: Completion,   // extract_skills_with_llm
    github: RepoListReply,     // fetch_github_skills
    roleReply: Completion,     // _get_role_requirements
    gapsReply: Completion,     // _identify_gaps
    roadmapReply: Completion,  // _generate_roadmap
    parse: Parser)             // json.loads

  // ---------------------------------------------------------------------------
  // _extract_profile_skills
  // ---------------------------------------------------------------------------

  /** The resume's contribution: only a non-blank resume is sent for extraction. */
  function ResumeSkills(resume: string, up: Upstream): (r: Traced<seq<Json>>)
    ensures IsBlank(resume) ==> r.value == [] && r.calls == []
    ensures !IsBlank(resume) ==> r.calls == [ResumeCompletion(Excerpt(resume))]
  {
    if IsBlank(resume) then Traced([], []) else ExtractSkillsWithLlm(resume, up.resumeReply, up.parse)
  }

  /** The repositories' contribution: only a non-blank user name is looked up. */
  function RepoSkills(user: string, up: Upstream): (r: Traced<set<string>>)
    ensures IsBlank(user) ==> r.value == {} && r.calls == []
    ensures !IsBlank(user) ==> |r.calls| >= 1 && r.calls[0] == ListRepos(user)
  {
    if IsBlank(user) then Traced({}, []) else GithubSkills(user, up.github)
  }

  /** The profile as a set: the union of both contributions, with the resume asked first.
      A list or dict among the resume skills cannot enter a set, and that fault escapes
      the stage before the repositories are asked. */
  function ProfileSkills(resume: string, user: string, up: Upstream): (r: Traced<Outcome<set<Json>>>)
    ensures IsBlank(resume) && IsBlank(user) ==> r == Traced(Ok({}), [])
    ensures r.value.Raised? ==>
      r.value.fault == UnhashableSkill && r.calls == [ResumeCompletion(Excerpt(resume))]
  {
    var fromResume := ResumeSkills(resume, up);
    if exists x :: x in fromResume.value && !Hashable(x) then
      Traced(Raised(UnhashableSkill), fromResume.calls)
    else
      var fromRepos := RepoSkills(user, up);
      var resumePart := set x | x in fromResume.value;
      var repoPart := set g | g in fromRepos.value :: JString(g);
      assert IsBlank(resume) ==> fromResume == Traced([], []) && resumePart == {};
      assert IsBlank(user) ==> fromRepos == Traced({}, []) && repoPart == {};
      assert IsBlank(resume) && IsBlank(user) ==> resumePart + repoPart == {};
      assert IsBlank(resume) && IsBlank(user) ==> fromResume.calls + fromRepos.calls == [];
      Traced(Ok(resumePart + repoPart), fromResume.calls + fromRepos.calls)
  }

  /** `_extract_profile_skills`: a mutable set updated from each source in turn. */
  method ExtractProfileSkills(resume: string, user: string, up: Upstream)
    returns (r: Traced<Outcome<set<Json>>>)
    ensures r == ProfileSkills(resume, user, up)
  {
    var skills: set<Json> := {};
    var calls: seq<Call> := [];
    ghost var fromResume := ResumeSkills(resume, up);
    if !IsBlank(resume) {
      var resumeSkills := ExtractSkillsWithLlm(resume, up.resumeReply, up.parse);
      calls := calls + resumeSkills.calls;
      if resumeSkills.value != [] {
        if exists x :: x in resumeSkills.value && !Hashable(x) {
          return Traced(Raised(UnhashableSkill), calls);
        }
        skills := skills + (set x | x in resumeSkills.value);
      }
    }
    assert !exists x :: x in fromResume.value && !Hashable(x);
    assert skills == (set x | x in fromResume.value) && calls == fromResume.calls;
    ghost var fromRepos := RepoSkills(user, up);
    if !IsBlank(user) {
      var repoSkills, repoCalls := FetchGithubSkills(user, up.github);
      calls := calls + repoCalls;
      if repoSkills != {} {
        skills := skills + (set g | g in repoSkills :: JString(g));
      }
    }
    assert skills == (set x | x in fromResume.value) + (set g | g in fromRepos.value :: JString(g));
    assert calls == fromResume.calls + fromRepos.calls;
    return Traced(Ok(skills), calls);
  }

  /** A skill is in the profile exactly when the non-blank resume yielded it, or it is a
      language or topic the non-blank user's repositories yielded. */
  lemma ProfileIsUnion(resume: string, user: string, up: Upstream, x: Json)
    requires ProfileSkills(resume, user, up).value.Ok?
    ensures x in ProfileSkills(resume, user, up).value.value <==>
      (!IsBlank(resume) && x in ExtractSkillsWithLlm(resume, up.resumeReply, up.parse).value) ||
      (!IsBlank(user) && x.JString? && x.s in GithubSkills(user, up.github).value)
  {
  }

  // ---------------------------------------------------------------------------
  // _get_role_requirements
  // ---------------------------------------------------------------------------

  /** `_get_role_requirements`: a known role comes from the table with no request;
      any other role is asked of the model, and a failed request or an undecodable
      reply gives `{"description": "", "skills": []}`. */
  function GetRoleRequirements(role: string, reply: Completion, parse: Parser): (r: Traced<Json>)
    ensures role in KnownRoles ==> r == Traced(KnownRoles[role].ToJson(), [])
    ensures role !in KnownRoles ==> r.calls == [RoleCompletion(role)]
    ensures role !in KnownRoles && (reply.Failed? || parse(reply.text).Malformed?) ==>
      r.value == EmptyRequirement.ToJson()
    ensures role !in KnownRoles && reply.Responded? && parse(reply.text).Parsed? ==>
      r.value == parse(reply.text).value
  {
    var fromTable := GetJobRequirements(role);
    if fromTable.skills != [] then Traced(fromTable.ToJson(), [])
    else
      var value :=
        match reply
        case Failed(_) => EmptyRequirement.ToJson()
        case Responded(text) =>
          match parse(text)
          case Parsed(v) => v
          case Malformed(_) => EmptyRequirement.ToJson();
      Traced(value, [RoleCompletion(role)])
  }

  /** `job_req.get("skills", [])` */
  function RequiredSkills(requirements: Json): (r: Json)
    requires requirements.JObject?
    ensures "skills" in requirements.fields ==> r == requirements.fields["skills"]
    ensures "skills" !in requirements.fields ==> r == JArray([]) && !Truthy(r)
  {
    Get(requirements.fields, "skills", JArray([]))
  }

  // ---------------------------------------------------------------------------
  // _identify_gaps
  // ---------------------------------------------------------------------------

  /** `{"missing": [], "partial": []}` */
  const EmptyGaps: Json := JObject(map["missing" := JArray([]), "partial" := JArray([])])

  /** `_identify_gaps`: an empty (falsy) requirement list gives the empty analysis with no
      request; otherwise one request is made and a failure of either the request or the
      decoding gives the same empty analysis. The classification itself is the model's. */
  function IdentifyGaps(required: Json, reply: Completion, parse: Parser): (r: Traced<Json>)
    ensures !Truthy(required) ==> r == Traced(EmptyGaps, [])
    ensures Truthy(required) ==> r.calls == [GapsCompletion]
    ensures reply.Failed? || parse(reply.text).Malformed? ==> r.value == EmptyGaps
    ensures Truthy(required) && reply.Responded? && parse(reply.text).Parsed? ==>
      r.value == parse(reply.text).value
  {
    if !Truthy(required) then Traced(EmptyGaps, [])
    else
      var value :=
        match reply
        case Failed(_) => EmptyGaps
        case Responded(text) =>
          match parse(text)
          case Parsed(v) => v
          case Malformed(_) => EmptyGaps;
      Traced(value, [GapsCompletion])
  }

  // ---------------------------------------------------------------------------
  // _generate_roadmap
  // ---------------------------------------------------------------------------

  /** The slice from the first `{` to the last `}` of a reply (`content[start:end]` with
      `start = find('{')` and `end = rfind('}') + 1`), taken only when both are present.
      A `}` that comes before every `{` leaves an empty slice. */
  function IsolateJson(content: string): (r: string)
    ensures '{' !in content || '}' !in content ==> r == content
    ensures '{' in content && '}' in content && Find(content, '{') > RFind(content, '}') ==> r == ""
    ensures '{' in content && '}' in content && Find(content, '{') < RFind(content, '}') ==>
      r == content[Find(content, '{')..RFind(content, '}') + 1] &&
      |r| >= 2 && r[0] == '{' && r[|r| - 1] == '}'
  {
    var start := Find(content, '{');
    var end := RFind(content, '}') + 1;
    if start != -1 && end != 0 then
      if start < end then content[start..end] else ""
    else content
  }

  /** Isolating twice gives what isolating once gives. */
  lemma IsolateJsonIdempotent(content: string)
    ensures IsolateJson(IsolateJson(content)) == IsolateJson(content)
  {
    var r := IsolateJson(content);
    if '{' in content && '}' in content && Find(content, '{') < RFind(content, '}') {
      assert Find(r, '{') == 0;
      assert RFind(r, '}') == |r| - 1;
      assert r[0..|r|] == r;
    }
  }

  /** A JSON object wrapped in prose is isolated exactly, as long as the prose before it
      holds no `{` and the prose after it holds no `}`. */
  lemma IsolateJsonInProse(before: string, json: string, after: string)
    requires '{' !in before && '}' !in after
    requires |json| > 0 && json[0] == '{' && json[|json| - 1] == '}'
    ensures IsolateJson(before + json + after) == json
  {
    var s := before + json + after;
    assert '{' in json && '}' in json;
    FindAfterPrefix(before, json + after, '{');
    assert before + (json + after) == s;
    assert Find(json + after, '{') == 0;
    RFindBeforeSuffix(before + json, after, '}');
    assert RFind(before + json, '}') == |before| + |json| - 1;
    assert s[|before|..|before| + |json|] == json;
  }

  /** `{"error": "Could not generate roadmap: <message>"}` */
  function RoadmapError(message: string): (r: Json)
    ensures r.JObject? && r.fields.Keys == {"error"} && r.fields["error"].JString?
    ensures var text := r.fields["error"].s;
      |text| >= |message| && text[|text| - |message|..] == message &&
      text[..|text| - |message|] == "Could not generate roadmap: "
  {
    JObject(map["error" := JString("Could not generate roadmap: " + message)])
  }

  /** `_generate_roadmap`: reading `gaps` for the prompt happens before the stage's own
      handler, so gaps that are not a dict make the stage raise, with no request. Otherwise
      one request is made and the stage always yields a value: the decoded slice, or the
      error record carrying the failure's message. */
  function GenerateRoadmap(gaps: Json, role: string, reply: Completion, parse: Parser)
    : (r: Traced<Outcome<Json>>)
    ensures !gaps.JObject? ==> r == Traced(Raised(GapsNotAnObject), [])
    ensures gaps.JObject? ==> r.value.Ok? && r.calls == [RoadmapCompletion(role)]
    ensures gaps.JObject? && reply.Failed? ==> r.value.value == RoadmapError(reply.message)
    ensures gaps.JObject? && reply.Responded? ==>
      r.value.value == match parse(IsolateJson(reply.text))
                       case Parsed(v) => v
                       case Malformed(m) => RoadmapError(m)
  {
    if !gaps.JObject? then Traced(Raised(GapsNotAnObject), [])
    else
      var value :=
        match reply
        case Failed(message) => RoadmapError(message)
        case Responded(text) =>
          match parse(IsolateJson(text))
          case Parsed(v) => v
          case Malformed(message) => RoadmapError(message);
      Traced(Ok(value), [RoadmapCompletion(role)])
  }

  /** Prose around the roadmap object changes nothing: the reply is treated as the bare
      object would be. */
  lemma RoadmapIgnoresProse(gaps: Json, role: string, before: string, json: string, after: string,
                            parse: Parser)
    requires '{' !in before && '}' !in after
    requires |json| > 0 && json[0] == '{' && json[|json| - 1] == '}'
    ensures GenerateRoadmap(gaps, role, Responded(before + json + after), parse) ==
            GenerateRoadmap(gaps, role, Responded(json), parse)
  {
    IsolateJsonInProse(before, json, after);
    assert Find(json, '{') == 0 && RFind(json, '}') == |json| - 1;
    assert json[0..|json|] == json;
    assert IsolateJson(json) == json;
  }

  // ---------------------------------------------------------------------------
  // run
  // ---------------------------------------------------------------------------

  /** The dict `run` returns: the four stage results, or only an `"error"` entry. */
  datatype PipelineResult =
    | Completed(profileSkills: set<Json>, jobRequirements: Json, gaps: Json, roadmap: Json)
    | Error(fault: Fault)

  /** `run`: the four stages in order, with one handler around all of them. */
  function Run(resume: string, user: string, role: string, up: Upstream): (r: Traced<PipelineResult>)
    ensures r.value.Error? && r.value.fault == UnhashableSkill ==>
      r.calls == ProfileSkills(resume, user, up).calls
    ensures r.value.Completed? ==>
      r.value.jobRequirements.JObject? &&
      |r.calls| >= 1 && r.calls[|r.calls| - 1] == RoadmapCompletion(role)
  {
    var profile := ProfileSkills(resume, user, up);
    match profile.value
    case Raised(fault) => Traced(Error(fault), profile.calls)
    case Ok(skills) =>
      var requirements := GetRoleRequirements(role, up.roleReply, up.parse);
      if !requirements.value.JObject? then
        Traced(Error(RequirementsNotAnObject), profile.calls + requirements.calls)
      else
        var gaps := IdentifyGaps(RequiredSkills(requirements.value), up.gapsReply, up.parse);
        var roadmap := GenerateRoadmap(gaps.value, role, up.roadmapReply, up.parse);
        var later := requirements.calls + gaps.calls + roadmap.calls;
        var calls := profile.calls + later;
        match roadmap.value
        case Raised(fault) => Traced(Error(fault), calls)
        case Ok(plan) => Traced(Completed(skills, requirements.value, gaps.value, plan), calls)
  }

  /** The profile requests come first in every run, whatever happens later. */
  lemma RunStartsWithProfile(resume: string, user: string, role: string, up: Upstream)
    ensures var profile := ProfileSkills(resume, user, up);
      var r := Run(resume, user, role, up);
      |profile.calls| <= |r.calls| && r.calls[..|profile.calls|] == profile.calls
  {
    var profile := ProfileSkills(resume, user, up);
    var r := Run(resume, user, role, up);
    var later := r.calls[|profile.calls|..];
    assert r.calls == profile.calls + later;
  }

  /** A run either completes with the four stage results, each exactly what its stage
      produced, or fails with the first fault that escaped a stage; a failed roadmap
      request is never such a fault. */
  lemma RunResultShape(resume: string, user: string, role: string, up: Upstream)
    ensures var r := Run(resume, user, role, up).value;
      var profile := ProfileSkills(resume, user, up).value;
      var requirements := GetRoleRequirements(role, up.roleReply, up.parse).value;
      (r.Completed? ==>
        profile == Ok(r.profileSkills) && requirements == r.jobRequirements &&
        requirements.JObject? &&
        r.gaps == IdentifyGaps(RequiredSkills(requirements), up.gapsReply, up.parse).value &&
        Ok(r.roadmap) == GenerateRoadmap(r.gaps, role, up.roadmapReply, up.parse).value) &&
      (r.Error? ==>
        (profile.Raised? && r.fault == UnhashableSkill) ||
        (profile.Ok? && !requirements.JObject? && r.fault == RequirementsNotAnObject) ||
        (profile.Ok? && requirements.JObject? && r.fault == GapsNotAnObject &&
         !IdentifyGaps(RequiredSkills(requirements), up.gapsReply, up.parse).value.JObject?))
  {
  }

  /** A failed roadmap request stays inside its stage: the run still completes, with the
      other three fields populated and the roadmap replaced by the error record. */
  lemma RoadmapFailureStaysInStage(resume: string, user: string, role: string, up: Upstream)
    requires up.roadmapReply.Failed?
    requires ProfileSkills(resume, user, up).value.Ok?
    requires GetRoleRequirements(role, up.roleReply, up.parse).value.JObject?
    requires IdentifyGaps(RequiredSkills(GetRoleRequirements(role, up.roleReply, up.parse).value),
                          up.gapsReply, up.parse).value.JObject?
    ensures var r := Run(resume, user, role, up).value;
      r.Completed? &&
      r.profileSkills == ProfileSkills(resume, user, up).value.value &&
      r.jobRequirements == GetRoleRequirements(role, up.roleReply, up.parse).value &&
      r.gaps == IdentifyGaps(RequiredSkills(GetRoleRequirements(role, up.roleReply, up.parse).value),
                             up.gapsReply, up.parse).value &&
      r.roadmap == RoadmapError(up.roadmapReply.message)
  {
  }

  /** A known role goes through without a requirements request: the run reports the table
      entry, the gaps the model returned, and issues exactly the profile requests, one gap
      request and one roadmap request. */
  lemma KnownRoleEndToEnd(resume: string, user: string, role: string, up: Upstream)
    requires role in KnownRoles
    requires ProfileSkills(resume, user, up).value.Ok?
    requires up.gapsReply.Responded?
    requires up.parse(up.gapsReply.text).Parsed? && up.parse(up.gapsReply.text).value.JObject?
    ensures var r := Run(resume, user, role, up);
      r.value.Completed? &&
      r.value.jobRequirements == KnownRoles[role].ToJson() &&
      r.value.gaps == up.parse(up.gapsReply.text).value &&
      r.calls == ProfileSkills(resume, user, up).calls + [GapsCompletion, RoadmapCompletion(role)]
  {
    KnownRequirementsAreListed(role, up.roleReply, up.parse);
    RunWithListedRequirements(resume, user, role, up);
  }

  /** When the requirements stage issues no request and yields a dict with a non-empty
      skill list, a run whose gap reply decodes to a dict completes with one gap request
      and one roadmap request after the profile requests. */
  lemma RunWithListedRequirements(resume: string, user: string, role: string, up: Upstream)
    requires ProfileSkills(resume, user, up).value.Ok?
    requires var requirements := GetRoleRequirements(role, up.roleReply, up.parse);
      requirements.calls == [] && requirements.value.JObject? &&
      Truthy(RequiredSkills(requirements.value))
    requires up.gapsReply.Responded?
    requires up.parse(up.gapsReply.text).Parsed? && up.parse(up.gapsReply.text).value.JObject?
    ensures var r := Run(resume, user, role, up);
      r.value.Completed? &&
      r.value.jobRequirements == GetRoleRequirements(role, up.roleReply, up.parse).value &&
      r.value.gaps == up.parse(up.gapsReply.text).value &&
      r.calls == ProfileSkills(resume, user, up).calls + [GapsCompletion, RoadmapCompletion(role)]
  {
    var requirements := GetRoleRequirements(role, up.roleReply, up.parse);
    var gaps := IdentifyGaps(RequiredSkills(requirements.value), up.gapsReply, up.parse);
    assert gaps == Traced(up.parse(up.gapsReply.text).value, [GapsCompletion]);
    var roadmap := GenerateRoadmap(gaps.value, role, up.roadmapReply, up.parse);
    assert roadmap.value.Ok? && roadmap.calls == [RoadmapCompletion(role)];
    var profile := ProfileSkills(resume, user, up);
    AppendTwo(profile.calls, GapsCompletion, RoadmapCompletion(role));
  }

  lemma AppendTwo(calls: seq<Call>, first: Call, second: Call)
    ensures calls + ([] + [first] + [second]) == calls + [first, second]
  {
  }

  /** A known role's table entry reaches the gap stage as a non-empty list of skills. */
  lemma KnownRequirementsAreListed(role: string, reply: Completion, parse: Parser)
    requires role in KnownRoles
    ensures var requirements := GetRoleRequirements(role, reply, parse);
      requirements == Traced(KnownRoles[role].ToJson(), []) &&
      Truthy(RequiredSkills(requirements.value))
  {
    KnownRolesShape();
    var entry := KnownRoles[role];
    assert |Strings(entry.skills)| == 10;
  }
}
