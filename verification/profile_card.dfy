/** The profile card's completion score, missing-section list and status
    badge (`src/components/profile/profile-card.tsx`). */
module ProfileCard {
  import opened ResumeTypes

  /** The eight sections the card checks, in the order it reports them. */
  datatype Section =
    BasicInfo | EmailSection | PhoneSection | LocationSection
    | WorkSection | EducationSection | SkillsSection | ProjectsSection

  const Sections: seq<Section> :=
    [BasicInfo, EmailSection, PhoneSection, LocationSection,
     WorkSection, EducationSection, SkillsSection, ProjectsSection]

  function SectionName(s: Section): string {
    match s
    case BasicInfo => "Basic Info"
    case EmailSection => "Email"
    case PhoneSection => "Phone Number"
    case LocationSection => "Location"
    case WorkSection => "Work Experience"
    case EducationSection => "Education"
    case SkillsSection => "Skills"
    case ProjectsSection => "Projects"
  }

  /** The truthiness test the card applies to one section. */
  predicate Filled(p: Profile, s: Section) {
    match s
    case BasicInfo => Truthy(p.first_name) && Truthy(p.last_name)
    case EmailSection => Truthy(p.email)
    case PhoneSection => Truthy(p.phone_number)
    case LocationSection => Truthy(p.location)
    case WorkSection => |p.work_experience| > 0
    case EducationSection => |p.education| > 0
    case SkillsSection => |p.skills| > 0
    case ProjectsSection => |p.projects| > 0
  }

  /** The `sections` array of booleans built by the completion function. */
  function Checks(p: Profile): seq<bool> {
    [ Truthy(p.first_name) && Truthy(p.last_name),
      Truthy(p.email),
      Truthy(p.phone_number),
      Truthy(p.location),
      |p.work_experience| > 0,
      |p.education| > 0,
      |p.skills| > 0,
      |p.projects| > 0 ]
  }

  /** `checks.filter(Boolean).length`. */
  function CountTrue(checks: seq<bool>): (n: nat)
    ensures n <= |checks|
  {
    if |checks| == 0 then 0
    else CountTrue(checks[..|checks| - 1]) + (if checks[|checks| - 1] then 1 else 0)
  }

  /** `Math.round(num / den)` for non-negative operands: the nearest
      integer, halves rounded up. */
  function RoundHalfUp(num: nat, den: nat): (r: nat)
    requires den > 0
    ensures 2 * num - den < 2 * den * r <= 2 * num + den
  {
    (2 * num + den) / (2 * den)
  }

  /** Round-half-up of 100k/8 for each possible count k: seven of eight is
      88, and only eight of eight reaches 90. */
  lemma PercentOfEight(k: nat)
    requires k <= 8
    ensures RoundHalfUp(100 * k, 8) == [0, 13, 25, 38, 50, 63, 75, 88, 100][k]
  {
    if k == 0 {} else if k == 1 {} else if k == 2 {} else if k == 3 {}
    else if k == 4 {} else if k == 5 {} else if k == 6 {} else if k == 7 {}
  }

  /** `calculateProfileCompletion`: the share of satisfied checks as a
      rounded percentage. */
  function Completion(p: Profile): (c: nat)
    ensures c <= 100
    ensures c == 100 <==> CountTrue(Checks(p)) == 8
    ensures c >= 90 <==> c == 100
  {
    var k := CountTrue(Checks(p));
    PercentOfEight(k);
    RoundHalfUp(100 * k, |Checks(p)|)
  }

  /** With k of the 8 checks satisfied the completion is
      round-half-up(100k/8): 0, 13, 25, 38, 50, 63, 75, 88, 100. */
  lemma CompletionTable(p: Profile)
    ensures var k := CountTrue(Checks(p));
      k <= 8 && Completion(p) == [0, 13, 25, 38, 50, 63, 75, 88, 100][k]
  {
    PercentOfEight(CountTrue(Checks(p)));
  }

  /** `missing.push(name)` when the section fails its test. */
  function Push(missing: seq<string>, fails: bool, name: string): seq<string> {
    if fails then missing + [name] else missing
  }

  /** `getMissingSections`: one name pushed per failing test, in order. */
  function MissingSections(p: Profile): (missing: seq<string>)
    ensures |missing| <= |Sections|
    ensures missing == [] <==> forall s: Section :: Filled(p, s)
  {
    EverySectionFilled(p);
    var m := Push([], !Truthy(p.first_name) || !Truthy(p.last_name), "Basic Info");
    var m := Push(m, !Truthy(p.email), "Email");
    var m := Push(m, !Truthy(p.phone_number), "Phone Number");
    var m := Push(m, !Truthy(p.location), "Location");
    var m := Push(m, |p.work_experience| == 0, "Work Experience");
    var m := Push(m, |p.education| == 0, "Education");
    var m := Push(m, |p.skills| == 0, "Skills");
    Push(m, |p.projects| == 0, "Projects")
  }

  /** All sections are filled exactly when each of the eight is. */
  lemma EverySectionFilled(p: Profile)
    ensures (forall s: Section :: Filled(p, s)) <==>
      && Filled(p, BasicInfo) && Filled(p, EmailSection) && Filled(p, PhoneSection)
      && Filled(p, LocationSection) && Filled(p, WorkSection) && Filled(p, EducationSection)
      && Filled(p, SkillsSection) && Filled(p, ProjectsSection)
  {
    if && Filled(p, BasicInfo) && Filled(p, EmailSection) && Filled(p, PhoneSection)
       && Filled(p, LocationSection) && Filled(p, WorkSection) && Filled(p, EducationSection)
       && Filled(p, SkillsSection) && Filled(p, ProjectsSection)
    {
      forall s: Section ensures Filled(p, s) {
        match s {
          case BasicInfo => case EmailSection => case PhoneSection => case LocationSection =>
          case WorkSection => case EducationSection => case SkillsSection => case ProjectsSection =>
        }
      }
    }
  }

  /** Reference: the names of the unfilled sections among the first `i`
      of the table, in table order. */
  function UnfilledBefore(p: Profile, i: nat): seq<string>
    requires i <= |Sections|
  {
    if i == 0 then []
    else Push(UnfilledBefore(p, i - 1), !Filled(p, Sections[i - 1]), SectionName(Sections[i - 1]))
  }

  /** Reference: how many of the first `i` sections are filled. */
  function FilledBefore(p: Profile, i: nat): nat
    requires i <= |Sections|
  {
    if i == 0 then 0
    else FilledBefore(p, i - 1) + (if Filled(p, Sections[i - 1]) then 1 else 0)
  }

  /** The missing list is the unfilled sections in the fixed order Basic
      Info, Email, Phone Number, Location, Work Experience, Education,
      Skills, Projects. */
  lemma MissingFollowsSectionOrder(p: Profile)
    ensures MissingSections(p) == UnfilledBefore(p, 8)
  {
    var m1 := Push([], !Truthy(p.first_name) || !Truthy(p.last_name), "Basic Info");
    var m2 := Push(m1, !Truthy(p.email), "Email");
    var m3 := Push(m2, !Truthy(p.phone_number), "Phone Number");
    var m4 := Push(m3, !Truthy(p.location), "Location");
    var m5 := Push(m4, |p.work_experience| == 0, "Work Experience");
    var m6 := Push(m5, |p.education| == 0, "Education");
    var m7 := Push(m6, |p.skills| == 0, "Skills");
    assert Sections[0] == BasicInfo && Sections[1] == EmailSection;
    assert Sections[2] == PhoneSection && Sections[3] == LocationSection;
    assert Sections[4] == WorkSection && Sections[5] == EducationSection;
    assert Sections[6] == SkillsSection && Sections[7] == ProjectsSection;
    assert UnfilledBefore(p, 1) == m1;
    assert UnfilledBefore(p, 2) == m2;
    assert UnfilledBefore(p, 3) == m3;
    assert UnfilledBefore(p, 4) == m4;
    assert UnfilledBefore(p, 5) == m5;
    assert UnfilledBefore(p, 6) == m6;
    assert UnfilledBefore(p, 7) == m7;
  }

  /** The completion array holds, position by position, the section tests. */
  lemma ChecksAreSectionTests(p: Profile)
    ensures |Checks(p)| == |Sections|
    ensures forall i :: 0 <= i < |Sections| ==> Checks(p)[i] == Filled(p, Sections[i])
  {
  }

  lemma {:induction false} CountIsFilledBefore(p: Profile, i: nat)
    requires i <= |Sections|
    ensures CountTrue(Checks(p)[..i]) == FilledBefore(p, i)
  {
    ChecksAreSectionTests(p);
    if i > 0 {
      CountIsFilledBefore(p, i - 1);
      assert Checks(p)[..i][..i - 1] == Checks(p)[..i - 1];
    }
  }

  lemma {:induction false} UnfilledLength(p: Profile, i: nat)
    requires i <= |Sections|
    ensures |UnfilledBefore(p, i)| == i - FilledBefore(p, i)
  {
    if i > 0 { UnfilledLength(p, i - 1); }
  }

  /** The missing list and the completion count agree: one entry per
      failing check, so 8 minus the satisfied ones. */
  lemma MissingCountsFailedChecks(p: Profile)
    ensures |MissingSections(p)| == 8 - CountTrue(Checks(p))
  {
    MissingFollowsSectionOrder(p);
    UnfilledLength(p, 8);
    CountIsFilledBefore(p, 8);
    assert Checks(p)[..8] == Checks(p);
  }

  /** Where a section sits in the table. */
  function SectionIndex(s: Section): (k: nat)
    ensures k < |Sections| && Sections[k] == s
  {
    match s
    case BasicInfo => 0
    case EmailSection => 1
    case PhoneSection => 2
    case LocationSection => 3
    case WorkSection => 4
    case EducationSection => 5
    case SkillsSection => 6
    case ProjectsSection => 7
  }

  lemma SectionNamesDistinct(a: Section, b: Section)
    requires a != b
    ensures SectionName(a) != SectionName(b)
  {
  }

  /** A name is in the reference list exactly when it names an unfilled
      section among the first `i`, and no name occurs twice. */
  lemma {:induction false} UnfilledMembersDistinct(p: Profile, i: nat)
    requires i <= |Sections|
    ensures forall n :: n in UnfilledBefore(p, i) <==>
      exists j :: 0 <= j < i && !Filled(p, Sections[j]) && n == SectionName(Sections[j])
    ensures forall a, b :: 0 <= a < b < |UnfilledBefore(p, i)| ==>
      UnfilledBefore(p, i)[a] != UnfilledBefore(p, i)[b]
  {
    if i > 0 {
      UnfilledMembersDistinct(p, i - 1);
      var prev := UnfilledBefore(p, i - 1);
      var name := SectionName(Sections[i - 1]);
      forall n | n in prev ensures n != name {
        var j :| 0 <= j < i - 1 && !Filled(p, Sections[j]) && n == SectionName(Sections[j]);
        SectionNamesDistinct(Sections[j], Sections[i - 1]);
      }
      if !Filled(p, Sections[i - 1]) {
        var l := prev + [name];
        forall a, b | 0 <= a < b < |l| ensures l[a] != l[b] {
          assert l[a] == prev[a] && l[a] in prev;
        }
      }
    }
  }

  /** No section name is reported twice, and a section is reported exactly
      when its test fails. */
  lemma MissingHasNoDuplicates(p: Profile)
    ensures forall a, b :: 0 <= a < b < |MissingSections(p)| ==>
      MissingSections(p)[a] != MissingSections(p)[b]
    ensures forall s :: SectionName(s) in MissingSections(p) <==> !Filled(p, s)
  {
    MissingFollowsSectionOrder(p);
    UnfilledMembersDistinct(p, 8);
    forall s ensures SectionName(s) in MissingSections(p) <==> !Filled(p, s) {
      var k := SectionIndex(s);
      if SectionName(s) in MissingSections(p) {
        var j :| 0 <= j < 8 && !Filled(p, Sections[j]) && SectionName(s) == SectionName(Sections[j]);
        if Sections[j] != s { SectionNamesDistinct(Sections[j], s); }
      }
    }
  }

  /** Nothing is missing exactly when the completion is 100. */
  lemma NothingMissingIffFull(p: Profile)
    ensures MissingSections(p) == [] <==> Completion(p) == 100
  {
    MissingCountsFailedChecks(p);
  }

  /** Basic Info is missing when either name is null or empty. */
  lemma BasicInfoMissing(p: Profile)
    ensures "Basic Info" in MissingSections(p) <==> !Truthy(p.first_name) || !Truthy(p.last_name)
  {
    MissingHasNoDuplicates(p);
    assert SectionName(BasicInfo) == "Basic Info";
  }

  datatype Status = Complete | AlmostComplete | InProgress | JustStarted

  function StatusLabel(s: Status): (text: string)
    ensures text == "Complete" <==> s == Complete
    ensures text == "Almost Complete" <==> s == AlmostComplete
    ensures text == "In Progress" <==> s == InProgress
    ensures text == "Just Started" <==> s == JustStarted
  {
    match s
    case Complete => "Complete"
    case AlmostComplete => "Almost Complete"
    case InProgress => "In Progress"
    case JustStarted => "Just Started"
  }

  /** `getProfileStatus`: the badge for a completion percentage. */
  function ProfileStatus(completion: int): (s: Status)
    ensures s == Complete <==> completion >= 90
    ensures s == AlmostComplete <==> 70 <= completion < 90
    ensures s == InProgress <==> 40 <= completion < 70
    ensures s == JustStarted <==> completion < 40
  {
    if completion >= 90 then Complete
    else if completion >= 70 then AlmostComplete
    else if completion >= 40 then InProgress
    else JustStarted
  }

  /** Because seven of eight checks round to 88, the card says "Complete"
      exactly when nothing is missing. */
  lemma CompleteIffNothingMissing(p: Profile)
    ensures ProfileStatus(Completion(p)) == Complete <==> MissingSections(p) == []
  {
    NothingMissingIffFull(p);
  }
}
