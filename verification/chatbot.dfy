/** The resume edits the AI assistant performs
    (`src/components/resume/assistant/chatbot.tsx`): the `getResume`
    projection, per-item suggestions, the whole-resume update and its
    snapshot-based undo. */
module Chatbot {
  import opened Wrappers
  import opened ResumeTypes
  import Lists

  // ---------------------------------------------------------------------
  // getResume

  /** A value of the object `getResume` hands back to the model.
      `Undefined` is what a lookup of an unknown section name yields. */
  datatype SectionValue =
    | PersonalInfo(fields: map<ContactField, Option<string>>)
    | WorkItems(work: seq<WorkExperience>)
    | EducationItems(education: seq<Education>)
    | SkillItems(skills: seq<Skill>)
    | ProjectItems(projects: seq<Project>)
    | CertificationItems(certifications: seq<Certification>)
    | TargetRole(role: Option<string>)
    | Undefined

  /** The keys of `sectionMap`. */
  const SectionKeys: set<string> :=
    {"personal_info", "work_experience", "education", "skills", "projects", "certifications"}

  /** The eight contact fields, as the `personal_info` object. */
  function PersonalInfoOf(r: Resume): (info: map<ContactField, Option<string>>)
    ensures forall f :: f in info && info[f] == ResumeContact(r, f)
  {
    ContactFieldsComplete();
    map f: ContactField | f in ContactFields :: ResumeContact(r, f)
  }

  /** `sectionMap[name]`. */
  function SectionOf(r: Resume, name: string): (v: SectionValue)
    ensures v == Undefined <==> name !in SectionKeys
  {
    if name == "personal_info" then PersonalInfo(PersonalInfoOf(r))
    else if name == "work_experience" then WorkItems(r.work_experience)
    else if name == "education" then EducationItems(r.education)
    else if name == "skills" then SkillItems(r.skills)
    else if name == "projects" then ProjectItems(r.projects)
    else if name == "certifications" then CertificationItems(r.certifications)
    else Undefined
  }

  /** The target role comes back only with 'all': asked for by name it
      reads undefined, since it is not a section key. */
  lemma TargetRoleOnlyWithAll(r: Resume, sections: seq<string>)
    requires "all" !in sections && "target_role" in sections
    ensures GetResume(r, sections)["target_role"] == Undefined
  {
  }

  /** The `getResume` tool: every section plus the target role when 'all'
      is asked for, otherwise exactly the requested names. */
  function GetResume(r: Resume, sections: seq<string>): (result: map<string, SectionValue>)
    ensures "all" in sections ==> result.Keys == SectionKeys + {"target_role"}
    ensures "all" in sections ==> result["target_role"] == TargetRole(r.target_role)
    ensures "all" !in sections ==> result.Keys == set s | s in sections
    ensures "all" in sections ==> forall k :: k in SectionKeys ==> result[k] == SectionOf(r, k)
    ensures "all" !in sections ==> forall k :: k in result ==> result[k] == SectionOf(r, k)
  {
    if "all" in sections then
      (map k | k in SectionKeys :: SectionOf(r, k))["target_role" := TargetRole(r.target_role)]
    else
      map k | k in sections :: SectionOf(r, k)
  }

  /** Each known section name reads the matching resume field, and
      `personal_info` holds exactly the eight contact fields. */
  lemma SectionValues(r: Resume)
    ensures SectionOf(r, "personal_info").PersonalInfo?
    ensures SectionOf(r, "personal_info").fields.Keys == set f: ContactField | f in ContactFields
    ensures forall f :: SectionOf(r, "personal_info").fields[f] == ResumeContact(r, f)
    ensures SectionOf(r, "work_experience") == WorkItems(r.work_experience)
    ensures SectionOf(r, "education") == EducationItems(r.education)
    ensures SectionOf(r, "skills") == SkillItems(r.skills)
    ensures SectionOf(r, "projects") == ProjectItems(r.projects)
    ensures SectionOf(r, "certifications") == CertificationItems(r.certifications)
    ensures forall name :: name !in SectionKeys ==> SectionOf(r, name) == Undefined
  {
  }

  // ---------------------------------------------------------------------
  // Tool routing and per-item suggestions

  /** The list fields a per-item suggestion can target. */
  datatype ListField = WorkExperienceField | ProjectsField | SkillsField | EducationField

  /** An entry of `toolConfig`: per-item tools name a list field and the
      argument holding the suggested item. */
  datatype ToolConfig =
    | ItemTool(kind: string, field: ListField, contentKey: string)
    | WholeResumeTool

  /** The keys of `toolConfig`. */
  const ToolNames: set<string> :=
    {"suggest_work_experience_improvement", "suggest_project_improvement",
     "suggest_skill_improvement", "suggest_education_improvement", "modifyWholeResume"}

  /** `toolConfig[toolName]`. */
  function ToolConfigOf(toolName: string): (c: Option<ToolConfig>)
    ensures c.Some? <==> toolName in ToolNames
    ensures c == Some(WholeResumeTool) <==> toolName == "modifyWholeResume"
  {
    if toolName == "suggest_work_experience_improvement" then
      Some(ItemTool("work_experience", WorkExperienceField, "improved_experience"))
    else if toolName == "suggest_project_improvement" then
      Some(ItemTool("project", ProjectsField, "improved_project"))
    else if toolName == "suggest_skill_improvement" then
      Some(ItemTool("skill", SkillsField, "improved_skill"))
    else if toolName == "suggest_education_improvement" then
      Some(ItemTool("education", EducationField, "improved_education"))
    else if toolName == "modifyWholeResume" then Some(WholeResumeTool)
    else None
  }

  /** Every suggest tool targets its own list field. */
  lemma ToolTargets()
    ensures ToolConfigOf("suggest_work_experience_improvement").value.field == WorkExperienceField
    ensures ToolConfigOf("suggest_project_improvement").value.field == ProjectsField
    ensures ToolConfigOf("suggest_skill_improvement").value.field == SkillsField
    ensures ToolConfigOf("suggest_education_improvement").value.field == EducationField
  {
  }

  /** The arguments of a per-item suggestion: the index and the suggested
      item, typed by the tool that produced it. */
  datatype Suggestion =
    | WorkSuggestion(index: int, experience: WorkExperience)
    | ProjectSuggestion(index: int, project: Project)
    | SkillSuggestion(index: int, skill: Skill)
    | EducationSuggestion(index: int, education: Education)

  function SuggestionField(s: Suggestion): ListField {
    match s
    case WorkSuggestion(_, _) => WorkExperienceField
    case ProjectSuggestion(_, _) => ProjectsField
    case SkillSuggestion(_, _) => SkillsField
    case EducationSuggestion(_, _) => EducationField
  }

  /** The length of a list field. */
  function ListLength(r: Resume, f: ListField): nat {
    match f
    case WorkExperienceField => |r.work_experience|
    case ProjectsField => |r.projects|
    case SkillsField => |r.skills|
    case EducationField => |r.education|
  }

  /** Two resumes agree on every field except possibly the list `f`. */
  predicate SameExceptList(r: Resume, r': Resume, f: ListField) {
    && (f != WorkExperienceField ==> r'.work_experience == r.work_experience)
    && (f != ProjectsField ==> r'.projects == r.projects)
    && (f != SkillsField ==> r'.skills == r.skills)
    && (f != EducationField ==> r'.education == r.education)
    && r' == r.(work_experience := r'.work_experience, projects := r'.projects,
                skills := r'.skills, education := r'.education)
  }

  /** Accept: `onResumeChange(field, list.map((item, i) => i === index ?
      suggested : item))`. */
  function AcceptSuggestion(r: Resume, s: Suggestion): (r': Resume)
    ensures SameExceptList(r, r', SuggestionField(s))
    ensures ListLength(r', SuggestionField(s)) == ListLength(r, SuggestionField(s))
    ensures s.WorkSuggestion? ==> forall i :: 0 <= i < |r.work_experience| ==>
      r'.work_experience[i] == (if i == s.index then s.experience else r.work_experience[i])
    ensures s.ProjectSuggestion? ==> forall i :: 0 <= i < |r.projects| ==>
      r'.projects[i] == (if i == s.index then s.project else r.projects[i])
    ensures s.SkillSuggestion? ==> forall i :: 0 <= i < |r.skills| ==>
      r'.skills[i] == (if i == s.index then s.skill else r.skills[i])
    ensures s.EducationSuggestion? ==> forall i :: 0 <= i < |r.education| ==>
      r'.education[i] == (if i == s.index then s.education else r.education[i])
  {
    match s
    case WorkSuggestion(i, x) => r.(work_experience := Lists.ReplaceAt(r.work_experience, i, x))
    case ProjectSuggestion(i, x) => r.(projects := Lists.ReplaceAt(r.projects, i, x))
    case SkillSuggestion(i, x) => r.(skills := Lists.ReplaceAt(r.skills, i, x))
    case EducationSuggestion(i, x) => r.(education := Lists.ReplaceAt(r.education, i, x))
  }

  /** An index outside the target list leaves the resume as it was. */
  lemma AcceptOutOfRange(r: Resume, s: Suggestion)
    requires !(0 <= s.index < ListLength(r, SuggestionField(s)))
    ensures AcceptSuggestion(r, s) == r
  {
    var r' := AcceptSuggestion(r, s);
    match s {
      case WorkSuggestion(_, _) => assert r'.work_experience == r.work_experience;
      case ProjectSuggestion(_, _) => assert r'.projects == r.projects;
      case SkillSuggestion(_, _) => assert r'.skills == r.skills;
      case EducationSuggestion(_, _) => assert r'.education == r.education;
    }
  }

  datatype Decision = Accept | Reject

  /** The suggestion card's two buttons; Reject is a no-op. */
  function Decide(r: Resume, s: Suggestion, d: Decision): (r': Resume)
    ensures d == Reject ==> r' == r
    ensures d == Accept ==> SameExceptList(r, r', SuggestionField(s))
    ensures d == Accept ==> ListLength(r', SuggestionField(s)) == ListLength(r, SuggestionField(s))
  {
    if d == Accept then AcceptSuggestion(r, s) else r
  }

  // ---------------------------------------------------------------------
  // modifyWholeResume and its undo

  /** The arguments of `modifyWholeResume`. `basicInfo` holds the keys of
      `basic_info` whose value is defined; a `None` list was not sent. */
  datatype WholeResumeUpdate = WholeResumeUpdate(
    basicInfo: Option<map<ContactField, string>>,
    work_experience: Option<seq<WorkExperience>>,
    education: Option<seq<Education>>,
    skills: Option<seq<Skill>>,
    projects: Option<seq<Project>>)

  /** The value a contact field takes under an update. */
  function UpdatedContact(r: Resume, u: WholeResumeUpdate, f: ContactField): Option<string> {
    if u.basicInfo.Some? && f in u.basicInfo.value then Some(u.basicInfo.value[f])
    else ResumeContact(r, f)
  }

  /** The partial update: only the sent `basic_info` keys and the sent
      lists are written; every other field keeps its value. */
  function ApplyUpdate(r: Resume, u: WholeResumeUpdate): (r': Resume)
    ensures forall f :: ResumeContact(r', f) == UpdatedContact(r, u, f)
    ensures r'.work_experience == u.work_experience.GetOr(r.work_experience)
    ensures r'.education == u.education.GetOr(r.education)
    ensures r'.skills == u.skills.GetOr(r.skills)
    ensures r'.projects == u.projects.GetOr(r.projects)
    ensures && r'.id == r.id && r'.user_id == r.user_id && r'.job_id == r.job_id
            && r'.is_base_resume == r.is_base_resume && r'.name == r.name
            && r'.professional_summary == r.professional_summary
            && r'.certifications == r.certifications && r'.section_order == r.section_order
            && r'.section_configs == r.section_configs && r'.target_role == r.target_role
            && r'.created_at == r.created_at && r'.updated_at == r.updated_at
  {
    r.(first_name := UpdatedContact(r, u, FirstName),
       last_name := UpdatedContact(r, u, LastName),
       email := UpdatedContact(r, u, Email),
       phone_number := UpdatedContact(r, u, PhoneNumber),
       location := UpdatedContact(r, u, Location),
       website := UpdatedContact(r, u, Website),
       linkedin_url := UpdatedContact(r, u, LinkedinUrl),
       github_url := UpdatedContact(r, u, GithubUrl),
       work_experience := u.work_experience.GetOr(r.work_experience),
       education := u.education.GetOr(r.education),
       skills := u.skills.GetOr(r.skills),
       projects := u.projects.GetOr(r.projects))
  }

  /** The assistant's resume and the snapshot held for undo. */
  datatype ChatSession = ChatSession(resume: Resume, snapshot: Option<Resume>)

  /** The `modifyWholeResume` tool call: snapshot, then apply. */
  function ModifyWholeResume(s: ChatSession, u: WholeResumeUpdate): (s': ChatSession)
    ensures s'.snapshot == Some(s.resume)
    ensures s'.resume == ApplyUpdate(s.resume, u)
  {
    ChatSession(ApplyUpdate(s.resume, u), Some(s.resume))
  }

  /** The suggestion card's render path: take a snapshot only when none is
      held. */
  function EnsureSnapshot(s: ChatSession): (s': ChatSession)
    ensures s'.resume == s.resume
    ensures s.snapshot.None? ==> s'.snapshot == Some(s.resume)
    ensures s.snapshot.Some? ==> s' == s
  {
    if s.snapshot.None? then s.(snapshot := Some(s.resume)) else s
  }

  /** The restore on reject as the source writes it: only the keys present
      on the snapshot object are written back, so an optional field that
      was absent keeps whatever value the update gave it. */
  function RestoreAsWritten(current: Resume, snapshot: Resume): (r: Resume)
    ensures r.id == current.id && r.created_at == current.created_at
    ensures r.updated_at == current.updated_at
    ensures r.user_id == snapshot.user_id && r.is_base_resume == snapshot.is_base_resume
    ensures r.name == snapshot.name && r.section_order == snapshot.section_order
    ensures r.section_configs == snapshot.section_configs
    ensures r.work_experience == snapshot.work_experience && r.education == snapshot.education
    ensures r.skills == snapshot.skills && r.projects == snapshot.projects
    ensures r.certifications == snapshot.certifications
    ensures r.job_id == if snapshot.job_id.Some? then snapshot.job_id else current.job_id
    ensures r.professional_summary
      == if snapshot.professional_summary.Some? then snapshot.professional_summary else current.professional_summary
    ensures r.target_role == if snapshot.target_role.Some? then snapshot.target_role else current.target_role
    ensures forall f :: ResumeContact(snapshot, f).Some? ==> ResumeContact(r, f) == ResumeContact(snapshot, f)
    ensures forall f :: ResumeContact(snapshot, f).None? ==> ResumeContact(r, f) == ResumeContact(current, f)
  {
    WritePresentKeys(current, snapshot, false)
  }

  /** The restore the reject handler intends: every field but `id`,
      `created_at` and `updated_at` goes back to the snapshot's value,
      an absent optional field to absent. */
  function Restore(current: Resume, snapshot: Resume): (r: Resume)
    ensures SameContent(snapshot, r)
    ensures r.id == current.id && r.created_at == current.created_at
    ensures r.updated_at == current.updated_at
  {
    snapshot.(id := current.id, created_at := current.created_at, updated_at := current.updated_at)
  }

  /** The reject button of the whole-resume card. */
  function RejectWholeResume(s: ChatSession): (s': ChatSession)
    ensures s.snapshot.None? ==> s' == s
    ensures s.snapshot.Some? ==> s'.snapshot.None? && SameContent(s.snapshot.value, s'.resume)
    ensures s.snapshot.Some? ==>
      s'.resume.id == s.resume.id && s'.resume.created_at == s.resume.created_at
      && s'.resume.updated_at == s.resume.updated_at
  {
    match s.snapshot
    case None => s
    case Some(original) => ChatSession(Restore(s.resume, original), None)
  }

  /** Snapshot, update, reject: the resume is back to where it started and
      no snapshot is held. */
  lemma ModifyThenRejectRestores(s: ChatSession, u: WholeResumeUpdate)
    ensures RejectWholeResume(ModifyWholeResume(s, u)) == ChatSession(s.resume, None)
  {
  }

  /** A whole-resume card rendered with no snapshot held takes one of the
      resume as it is, so rejecting it straight away changes nothing and
      clears the snapshot. */
  lemma SnapshotThenRejectRestores(s: ChatSession)
    requires s.snapshot.None?
    ensures RejectWholeResume(EnsureSnapshot(s)) == ChatSession(s.resume, None)
  {
  }

  /** The source's restore loses a change made to a contact field that the
      snapshot did not carry: the update's value survives the reject. */
  lemma RestoreAsWrittenKeepsNewContact(r: Resume, f: ContactField, value: string)
    requires ResumeContact(r, f).None?
    ensures var u := WholeResumeUpdate(Some(map[f := value]), None, None, None, None);
      && ResumeContact(RestoreAsWritten(ApplyUpdate(r, u), r), f) == Some(value)
      && RestoreAsWritten(ApplyUpdate(r, u), r) != r
  {
    var u := WholeResumeUpdate(Some(map[f := value]), None, None, None, None);
    var back := RestoreAsWritten(ApplyUpdate(r, u), r);
    assert UpdatedContact(r, u, f) == Some(value);
    match f {
      case FirstName => assert back.first_name == Some(value);
      case LastName => assert back.last_name == Some(value);
      case Email => assert back.email == Some(value);
      case PhoneNumber => assert back.phone_number == Some(value);
      case Location => assert back.location == Some(value);
      case Website => assert back.website == Some(value);
      case LinkedinUrl => assert back.linkedin_url == Some(value);
      case GithubUrl => assert back.github_url == Some(value);
    }
  }

  /** A concrete resume on which the source's undo fails: no website key,
      the assistant sets one, the reject leaves it in place. */
  lemma RestoreAsWrittenCounterexample()
    ensures var r := Resume("r1", "u1", None, true, "Base", Some("Ada"), Some("Lovelace"),
                            None, None, None, None, None, None, None,
                            [], [], [], [], [], [], map[], None, "t0", "t0");
      var u := WholeResumeUpdate(Some(map[Website := "ada.dev"]), None, None, None, None);
      RestoreAsWritten(ApplyUpdate(r, u), r).website == Some("ada.dev") && r.website == None
  {
    var r := Resume("r1", "u1", None, true, "Base", Some("Ada"), Some("Lovelace"),
                    None, None, None, None, None, None, None,
                    [], [], [], [], [], [], map[], None, "t0", "t0");
    RestoreAsWrittenKeepsNewContact(r, Website, "ada.dev");
  }

  /** When every optional key is present on the snapshot the source's
      restore and the intended one agree. */
  lemma RestoreAgreesWhenKeysPresent(current: Resume, snapshot: Resume)
    requires AllKeysPresent(snapshot)
    ensures RestoreAsWritten(current, snapshot) == Restore(current, snapshot)
  {
    WritePresentKeysKeepsMetadata(current, snapshot);
  }
}
