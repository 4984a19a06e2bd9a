# Personal Career Navigator — a verified model of the agent pipeline

The career navigator turns a resume, a GitHub user name and a dream role into
four results: the candidate's profile skills, the role's requirements, the
skill gaps and a 30-day learning roadmap. This project models the logic of the
pipeline that the Python code runs around its upstream services, and proves
properties of that model:

- `CareerNavigatorAgent.run` and its four stages;
- the helpers `extract_skills_with_llm`, `fetch_github_skills` and
  `get_job_requirements`.

The upstream services are inputs to the model:

- Each OpenAI chat completion is a `Completion`: either `Failed(message)` (the
  call raised) or `Responded(text)`.
- `json.loads` is an abstract `Parser` (`string -> Parse`), which either
  decodes a `Json` value or fails with a message.
- The GitHub API is a `RepoListReply` holding per-repository records: language,
  name, and the topics request's status and names.

Every stage returns a `Traced` value: its result together with the sequence of
upstream requests it issued (`Call`). This makes "no completion request is
made" a statement about the model (`calls == []`).

Modules:

- `PyStr` (`pystr.dfy`): Python's `str.isspace` whitespace, `strip()`, `find`
  and `rfind`.
- `Values` (`values.dfy`): decoded JSON, Python truthiness and hashability,
  completion replies, upstream calls, and the faults that escape a stage.
- `Quoted` (`quoted.dfy`): `re.findall(r'"(.*?)"', s)` as a left-to-right
  scanner. Matches are lazy, cannot cross a newline, and the scan resumes after
  the closing quote.
- `Utils` (`utils.dfy`): the three helpers of `utils.py`. The repository loop
  of `fetch_github_skills` is an imperative method over a mutable set, proved
  equal to its specification function.
- `Agent` (`agent.dfy`): the stages of `agent.py` and `run`.
  `_extract_profile_skills` is an imperative method proved equal to its
  specification function.

The model's functions are deterministic. Repeated lookups of the same role, or
repeated runs on the same upstream answers, therefore give equal results.

## Model

| member | source | states |
|---|---|---|
| PyStr.TrimStart | utils.py:8 | `lstrip` removes exactly a leading run of Python whitespace; the result is empty iff the text is blank |
| PyStr.TrimEnd | utils.py:8 | `rstrip` removes exactly a trailing run of Python whitespace; the result is empty iff the text is blank |
| PyStr.Strip | utils.py:24 | the stripped text is the input with a whitespace run removed from the front and one from the back, and nothing else; it neither starts nor ends with whitespace |
| PyStr.TrimmedBothEnds | utils.py:24 | removing a blank prefix and then a blank suffix leaves an infix of the input whose margins are blank |
| PyStr.BlankIffStripsToEmpty | agent.py:39 | `not s.strip()` holds exactly when every character of `s` is whitespace |
| PyStr.StripKeeps | utils.py:24 | a text with no whitespace at either end is unchanged by `strip()` |
| PyStr.Find | agent.py:121 | `find('{')` returns -1 iff there is no `{`; otherwise it returns the index of the first `{` |
| PyStr.RFind | agent.py:122 | `rfind('}')` returns -1 iff there is no `}`; otherwise it returns the index of the last `}` |
| PyStr.FindAfterPrefix | agent.py:121 | text before the first `{` that holds no `{` shifts `find` by its own length |
| PyStr.RFindBeforeSuffix | agent.py:122 | text after the last `}` that holds no `}` leaves `rfind` unchanged |
| Values.Get | agent.py:19 | `d.get(key, default)` returns the stored value for a present key and the default otherwise |
| Values.Strings | utils.py:69 | a list of Python strings becomes the same-length list of JSON strings, element by element |
| Quoted.CloseAt | utils.py:31 | the lazy `.*?"` closes at the first quote, unless a newline comes first, in which case it does not close at all |
| Quoted.FindQuoted | utils.py:31-34 | no fallback match contains a `"` or a newline; a reply with no quote yields no match |
| Quoted.FindQuotedEmptyIff | utils.py:31-34 | there is no match iff no quote can open one: after every quote a newline or the end comes before the next quote |
| Quoted.Between | utils.py:31 | there is exactly one outside piece more than there are matches |
| Quoted.FindQuotedCoversInput | utils.py:31 | the matches do not overlap and come in input order: the input is exactly the outside pieces interleaved with the quoted matches |
| Quoted.CloseAtWord | utils.py:31 | a quote-free, newline-free word followed by a quote closes right after the word |
| Quoted.FindQuotedAfterWord | utils.py:31 | a quoted word at the front is the first match, and the scan resumes after its closing quote |
| Quoted.FindQuotedAfterUnquoted | utils.py:31 | quote-free text in front of a reply adds no match |
| Quoted.FindQuotedOfQuotedList | utils.py:31-33 | round trip: scanning `"a", "b", ...` recovers exactly the words, in order |
| Utils.Excerpt | utils.py:15 | the prompt carries the first min(len, 2000) characters of the resume |
| Utils.SkillsFromReply | utils.py:24-36 | a failed request gives `[]`; a bracketed stripped reply gives the decoded list, or `[]` when it does not decode to a list; any other reply gives the quoted substrings, each free of quotes and newlines |
| Utils.ExtractSkillsWithLlm | utils.py:6-36 | blank text gives `[]` with no request; otherwise exactly one request carrying the 2000-character excerpt; a failed request gives `[]` |
| Utils.UnbracketedReply | utils.py:29-34 | a reply that is not bracketed once stripped yields its quoted substrings in order |
| Utils.QuotedReplyRecoversSkills | utils.py:24-34 | a reply listing quoted skills outside brackets yields exactly those skills, in order |
| Utils.IsBracketed | utils.py:26 | the reply counts as a JSON list exactly when it starts with `[` and ends with `]`, as `startswith`/`endswith` test them (so a lone `[` does not) |
| Utils.QuotedListDelimited | utils.py:26 | a quoted list starts and ends with a quote, so it is never taken as a bracketed JSON list |
| Utils.GithubSkills | utils.py:38-62 | the repository list is always requested first; a raised request, a status other than 200 or an unreadable list gives no skills after that one request; a readable status-200 list gives the loop's skills, and its requests after the list request |
| Utils.Visit | utils.py:48-59 | one turn of the repository loop adds only skills the repository contributes; a turn that does not raise adds all of them and issues exactly the topics request naming the repository |
| Utils.Harvest | utils.py:48-61 | the loop up to its first raising turn issues at most one request per repository, each a topics request for this user (`Utils.HarvestRequestsNameRepos` ties request k to repository k); its completeness, soundness and fault behaviour are stated by `Utils.HarvestCollectsAll`, `Utils.HarvestOnlyFromRepos` and `Utils.HarvestStopsAtFirstFault` |
| Utils.HarvestRequestsNameRepos | utils.py:48-56 | request k of the loop is the topics request naming repository k, so there is at most one request per repository, in order |
| Utils.FetchGithubSkills | utils.py:38-62 | the loop over a mutable set returns exactly the skills and requests of the specification `GithubSkills` |
| Utils.HarvestOnlyFromRepos | utils.py:48-59 | every collected skill is some repository's non-empty language or a topic name from a topics response with status 200 |
| Utils.HarvestCollectsAll | utils.py:48-59 | when no turn raises, every non-empty language and every topic name from a status-200 response is collected, with exactly one topics request per repository: request j names repository j |
| Utils.HarvestStopsAtFirstFault | utils.py:48-62 | a fault part-way through the loop returns what was collected up to and including the raising turn, not an empty list |
| Utils.RoleRequirement.ToJson | utils.py:67-86 | a table entry as a dict holds exactly the keys `description` and `skills`, with the entry's description as a JSON string and its skills as a JSON list in table order |
| Utils.GetJobRequirements | utils.py:64-88 | an exact table key gives its entry; any other role gives `{"description": "", "skills": []}` |
| Utils.KnownRolesShape | utils.py:66-87 | the table holds exactly the five roles, each with ten skills |
| Utils.LookupIsExact | utils.py:88 | lookup is by exact key: a different case or a trailing space is an unknown role |
| Agent.ResumeSkills | agent.py:39-40 | a blank resume gives no skills and no request; otherwise exactly one request carrying the resume excerpt |
| Agent.RepoSkills | agent.py:44-45 | a blank user name gives no skills and no request; otherwise the repository list of that user is requested first |
| Agent.ProfileSkills | agent.py:36-48 | a blank resume and a blank user name give the empty set with no request; the only fault is an unhashable resume skill, raised after the one resume request |
| Agent.ExtractProfileSkills | agent.py:36-48 | the step-by-step updates of a mutable set give exactly the specification `ProfileSkills` |
| Agent.ProfileIsUnion | agent.py:39-47 | a skill is in the profile iff the non-blank resume yielded it or the non-blank user's repositories yielded it as a language or topic |
| Agent.RequiredSkills | agent.py:19 | the requirements' `skills` entry when present, otherwise an empty (falsy) list |
| Agent.GetRoleRequirements | agent.py:50-71 | a role whose table entry lists skills gets that entry with no request; any other role causes one request, a failed request or undecodable reply gives `{"description": "", "skills": []}`, and a decodable reply gives its decoded value as is, with no brace isolation |
| Agent.KnownRequirementsAreListed | agent.py:52-54 | a known role's entry reaches the gap stage as a non-empty skill list, with no request |
| Agent.IdentifyGaps | agent.py:73-94 | a falsy requirement list gives `{"missing": [], "partial": []}` with no request; otherwise one request is made; a failed request or undecodable reply gives the same empty record, and a decodable reply gives its decoded value as is |
| Agent.IsolateJson | agent.py:121-124 | with no `{` or no `}` the reply is unchanged; a last `}` before the first `{` gives `""`; otherwise the result is the slice from the first `{` to the last `}`, starting with `{` and ending with `}` |
| Agent.IsolateJsonIdempotent | agent.py:121-124 | isolating the JSON twice gives the same as isolating it once |
| Agent.IsolateJsonInProse | agent.py:120-124 | an object wrapped in prose with no `{` before it and no `}` after it is isolated exactly |
| Agent.RoadmapError | agent.py:126-127 | the error record has the single key `error`, whose text is `Could not generate roadmap: ` followed by the failure's message |
| Agent.GenerateRoadmap | agent.py:96-127 | gaps that are not a dict raise before any request; otherwise one request is made and the stage always yields a value: the decoded slice, or the error record with the failure's message |
| Agent.RoadmapIgnoresProse | agent.py:119-125 | a reply with prose around the roadmap object is treated exactly as the bare object |
| Agent.Run | agent.py:12-34 | a fault in the profile stage ends the run after the profile requests; a completed run holds dict requirements and ends with the roadmap request; its full contract is stated by `Agent.RunResultShape`, `Agent.RunStartsWithProfile`, `Agent.RoadmapFailureStaysInStage` and `Agent.KnownRoleEndToEnd` |
| Agent.RunStartsWithProfile | agent.py:15-25 | the profile requests come first in every run, whatever the later stages do |
| Agent.RunResultShape | agent.py:12-34 | a run either completes with the four stage results, each exactly what its stage produced, or fails with the first fault that escaped a stage |
| Agent.RoadmapFailureStaysInStage | agent.py:25-34 | a failed roadmap request still completes the run: the profile, requirements and gaps fields are each exactly what their stage produced, and the roadmap is the error record |
| Agent.RunWithListedRequirements | agent.py:18-32 | requirements obtained with no request and holding a non-empty skill list, plus a gap reply that decodes to a dict, give a completed run with one gap request and one roadmap request after the profile requests |
| Agent.KnownRoleEndToEnd | agent.py:12-32 | for a role in the table the run completes with that table entry and the decoded gaps, and makes no requirements request |

## Left out

- `app.py`: the Streamlit interface, PDF text extraction and roadmap rendering are not part of this model.
- The agent constructor and the `openai.api_key` assignments: global configuration with no behaviour to check.
- The content of the OpenAI and GitHub requests: each reply is an input to the model. Prompt wording is not modelled, apart from the 2000-character resume excerpt, which is recorded in the request trace.
- `json.loads`: modelled as an abstract parser with no JSON grammar. Floating-point numbers are not modelled; `Json` numbers are integers.
- The text of an exception: a fault escaping `run` is one of three named faults, not the string `str(e)`. Inside the roadmap stage the message of a failed request or of a decoding error is kept.
- Python's equal-hash identities, such as `1 == True` and `1 == 1.0`, which merge elements of a set, are not modelled. JSON values are distinct when their constructors differ.
- The order of `list(set(...))`: Python gives no order, so both the profile skills and the GitHub skills are sets.
- Utils.SkillsFromReply: a bracketed reply that decodes to something other than a list gives `[]`. A real JSON decoder cannot produce that case.
- Utils.FetchGithubSkills: a repository list that is not a list of dicts is modelled per element as `NotAnObject`, which raises at `repo.get`. A topics body that is not a dict, or has no `names` entry, appears only as a readable name list (possibly empty) or as a read that raises. Topic names are strings.
- The GitHub request count follows the code: one repository-list request plus one topics request per repository visited.
- Agent.ProfileSkills: `if resume_skills` and `if github_skills` are covered by the union, because adding an empty collection changes nothing. The union is also insensitive to the order of the updates.
