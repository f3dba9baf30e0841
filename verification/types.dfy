/** The records of the resume application: the shared shapes of
    `src/lib/types.ts`, plus the contact-field view several components use. */
module ResumeTypes {
  import opened Wrappers

  datatype WorkExperience = WorkExperience(
    company: string,
    position: string,
    location: string,
    start_date: string,
    end_date: Option<string>,
    current: bool,
    description: seq<string>,
    technologies: Option<seq<string>>)

  /** `gpa` is a JavaScript number; it is held here in hundredths. */
  datatype Education = Education(
    school: string,
    degree: string,
    field: string,
    location: string,
    start_date: string,
    end_date: Option<string>,
    current: bool,
    gpa: Option<int>,
    achievements: Option<seq<string>>)

  datatype Project = Project(
    name: string,
    description: string,
    technologies: seq<string>,
    url: Option<string>,
    github_url: Option<string>,
    start_date: string,
    end_date: Option<string>,
    highlights: seq<string>)

  datatype Skill = Skill(category: string, items: seq<string>)

  datatype Certification = Certification(
    name: string,
    issuer: string,
    date_acquired: string,
    expiry_date: Option<string>,
    credential_id: Option<string>,
    url: Option<string>)

  datatype SectionStyle = Grouped | List | Grid

  datatype SectionConfig = SectionConfig(
    visible: bool,
    max_items: Option<int>,
    style: Option<SectionStyle>)

  /** A resume. Every `Option` field is an optional key; `None` is the key
      being absent. `target_role` is read by the assistant although the
      shared interface does not declare it. */
  datatype Resume = Resume(
    id: string,
    user_id: string,
    job_id: Option<string>,
    is_base_resume: bool,
    name: string,
    first_name: Option<string>,
    last_name: Option<string>,
    email: Option<string>,
    phone_number: Option<string>,
    location: Option<string>,
    website: Option<string>,
    linkedin_url: Option<string>,
    github_url: Option<string>,
    professional_summary: Option<string>,
    work_experience: seq<WorkExperience>,
    education: seq<Education>,
    skills: seq<Skill>,
    projects: seq<Project>,
    certifications: seq<Certification>,
    section_order: seq<string>,
    section_configs: map<string, SectionConfig>,
    target_role: Option<string>,
    created_at: string,
    updated_at: string)

  /** The master profile. Its text fields are `string | null`; `None` is
      `null`. */
  datatype Profile = Profile(
    id: string,
    user_id: string,
    first_name: Option<string>,
    last_name: Option<string>,
    email: Option<string>,
    phone_number: Option<string>,
    location: Option<string>,
    website: Option<string>,
    linkedin_url: Option<string>,
    github_url: Option<string>,
    professional_summary: Option<string>,
    work_experience: seq<WorkExperience>,
    education: seq<Education>,
    skills: seq<Skill>,
    projects: seq<Project>,
    certifications: seq<Certification>,
    created_at: string,
    updated_at: string)

  /** JavaScript truthiness of an optional string: present and non-empty. */
  predicate Truthy(v: Option<string>) {
    v.Some? && v.value != ""
  }

  /** The eight contact fields that the fill-from-profile button, the
      assistant's `personal_info` and its `basic_info` updates work on. */
  datatype ContactField =
    FirstName | LastName | Email | PhoneNumber | Location | Website | LinkedinUrl | GithubUrl

  const ContactFields: seq<ContactField> :=
    [FirstName, LastName, Email, PhoneNumber, Location, Website, LinkedinUrl, GithubUrl]

  /** `ContactFields` lists every contact field. */
  lemma ContactFieldsComplete()
    ensures forall f: ContactField :: f in ContactFields
  {
    forall f: ContactField ensures f in ContactFields {
      match f {
        case FirstName => assert ContactFields[0] == f;
        case LastName => assert ContactFields[1] == f;
        case Email => assert ContactFields[2] == f;
        case PhoneNumber => assert ContactFields[3] == f;
        case Location => assert ContactFields[4] == f;
        case Website => assert ContactFields[5] == f;
        case LinkedinUrl => assert ContactFields[6] == f;
        case GithubUrl => assert ContactFields[7] == f;
      }
    }
  }

  function ResumeContact(r: Resume, f: ContactField): Option<string> {
    match f
    case FirstName => r.first_name
    case LastName => r.last_name
    case Email => r.email
    case PhoneNumber => r.phone_number
    case Location => r.location
    case Website => r.website
    case LinkedinUrl => r.linkedin_url
    case GithubUrl => r.github_url
  }

  function ProfileContact(p: Profile, f: ContactField): Option<string> {
    match f
    case FirstName => p.first_name
    case LastName => p.last_name
    case Email => p.email
    case PhoneNumber => p.phone_number
    case Location => p.location
    case Website => p.website
    case LinkedinUrl => p.linkedin_url
    case GithubUrl => p.github_url
  }

  /** `onChange(field, value)` on one contact field of a resume. */
  function WithContact(r: Resume, f: ContactField, v: Option<string>): (r': Resume)
    ensures ResumeContact(r', f) == v
    ensures forall g :: g != f ==> ResumeContact(r', g) == ResumeContact(r, g)
    ensures SameOutsideContact(r, r')
  {
    match f
    case FirstName => r.(first_name := v)
    case LastName => r.(last_name := v)
    case Email => r.(email := v)
    case PhoneNumber => r.(phone_number := v)
    case Location => r.(location := v)
    case Website => r.(website := v)
    case LinkedinUrl => r.(linkedin_url := v)
    case GithubUrl => r.(github_url := v)
  }

  /** Two resumes agree on everything but the eight contact fields. */
  predicate SameOutsideContact(r: Resume, r': Resume) {
    && r'.id == r.id && r'.user_id == r.user_id && r'.job_id == r.job_id
    && r'.is_base_resume == r.is_base_resume && r'.name == r.name
    && r'.professional_summary == r.professional_summary
    && r'.work_experience == r.work_experience && r'.education == r.education
    && r'.skills == r.skills && r'.projects == r.projects
    && r'.certifications == r.certifications && r'.section_order == r.section_order
    && r'.section_configs == r.section_configs && r'.target_role == r.target_role
    && r'.created_at == r.created_at && r'.updated_at == r.updated_at
  }

  /** Two resumes agree on every field but `id`, `created_at` and
      `updated_at`. */
  predicate SameContent(r: Resume, r': Resume) {
    && r'.user_id == r.user_id && r'.job_id == r.job_id
    && r'.is_base_resume == r.is_base_resume && r'.name == r.name
    && (forall f :: ResumeContact(r', f) == ResumeContact(r, f))
    && r'.professional_summary == r.professional_summary
    && r'.work_experience == r.work_experience && r'.education == r.education
    && r'.skills == r.skills && r'.projects == r.projects
    && r'.certifications == r.certifications && r'.section_order == r.section_order
    && r'.section_configs == r.section_configs && r'.target_role == r.target_role
  }

  /** Agreement on everything outside the contact fields together with
      agreement on every contact field is equality. */
  lemma ContactExtensionality(r: Resume, r': Resume)
    requires SameOutsideContact(r, r')
    requires forall f :: ResumeContact(r', f) == ResumeContact(r, f)
    ensures r' == r
  {
    assert ResumeContact(r', FirstName) == ResumeContact(r, FirstName);
    assert ResumeContact(r', LastName) == ResumeContact(r, LastName);
    assert ResumeContact(r', Email) == ResumeContact(r, Email);
    assert ResumeContact(r', PhoneNumber) == ResumeContact(r, PhoneNumber);
    assert ResumeContact(r', Location) == ResumeContact(r, Location);
    assert ResumeContact(r', Website) == ResumeContact(r, Website);
    assert ResumeContact(r', LinkedinUrl) == ResumeContact(r, LinkedinUrl);
    assert ResumeContact(r', GithubUrl) == ResumeContact(r, GithubUrl);
  }

  /** `Object.keys(source).forEach(key => onChange(key, source[key]))`:
      every key present on `source` is written onto `target`. Required
      fields are always present; an optional field is present only when it
      is `Some`. `withMetadata` false skips `id`, `created_at` and
      `updated_at`. */
  function WritePresentKeys(target: Resume, source: Resume, withMetadata: bool): (r: Resume)
  {
    Resume(
      if withMetadata then source.id else target.id,
      source.user_id,
      if source.job_id.Some? then source.job_id else target.job_id,
      source.is_base_resume,
      source.name,
      if source.first_name.Some? then source.first_name else target.first_name,
      if source.last_name.Some? then source.last_name else target.last_name,
      if source.email.Some? then source.email else target.email,
      if source.phone_number.Some? then source.phone_number else target.phone_number,
      if source.location.Some? then source.location else target.location,
      if source.website.Some? then source.website else target.website,
      if source.linkedin_url.Some? then source.linkedin_url else target.linkedin_url,
      if source.github_url.Some? then source.github_url else target.github_url,
      if source.professional_summary.Some? then source.professional_summary else target.professional_summary,
      source.work_experience,
      source.education,
      source.skills,
      source.projects,
      source.certifications,
      source.section_order,
      source.section_configs,
      if source.target_role.Some? then source.target_role else target.target_role,
      if withMetadata then source.created_at else target.created_at,
      if withMetadata then source.updated_at else target.updated_at)
  }

  /** Every optional key of the record is present. */
  predicate AllKeysPresent(r: Resume) {
    && r.job_id.Some? && r.professional_summary.Some? && r.target_role.Some?
    && r.first_name.Some? && r.last_name.Some? && r.email.Some? && r.phone_number.Some?
    && r.location.Some? && r.website.Some? && r.linkedin_url.Some? && r.github_url.Some?
  }

  /** Writing a source that carries every optional key, metadata included,
      gives the source itself. */
  lemma WritePresentKeysCopies(target: Resume, source: Resume)
    requires AllKeysPresent(source)
    ensures WritePresentKeys(target, source, true) == source
  {
  }

  /** Without metadata, the same write keeps only the target's `id`,
      `created_at` and `updated_at`. */
  lemma WritePresentKeysKeepsMetadata(target: Resume, source: Resume)
    requires AllKeysPresent(source)
    ensures WritePresentKeys(target, source, false)
      == source.(id := target.id, created_at := target.created_at, updated_at := target.updated_at)
  {
  }

  /** A contact key the source leaves out keeps the target's value. */
  lemma WritePresentKeysKeepsAbsent(target: Resume, source: Resume, withMetadata: bool, f: ContactField)
    requires ResumeContact(source, f).None?
    ensures ResumeContact(WritePresentKeys(target, source, withMetadata), f) == ResumeContact(target, f)
  {
  }
}
