/** The "Fill from Profile" button of the basic-information form
    (`src/components/resume/basic-info-form.tsx`). */
module BasicInfo {
  import opened Wrappers
  import opened ResumeTypes

  /** The contact value after the button: the profile's value when it is
      a non-empty string, the resume's otherwise. */
  function FilledValue(r: Resume, p: Profile, f: ContactField): Option<string> {
    if Truthy(ProfileContact(p, f)) then ProfileContact(p, f) else ResumeContact(r, f)
  }

  /** `fields.forEach(field => { if (profile[field]) onChange(field,
      profile[field]) })`. */
  function CopyTruthy(r: Resume, p: Profile, fields: seq<ContactField>): (r': Resume)
    ensures SameOutsideContact(r, r')
    ensures forall f :: ResumeContact(r', f) == if f in fields && Truthy(ProfileContact(p, f))
                                                then ProfileContact(p, f) else ResumeContact(r, f)
    decreases |fields|
  {
    if fields == [] then r
    else
      var f := fields[0];
      var next := if Truthy(ProfileContact(p, f)) then WithContact(r, f, ProfileContact(p, f)) else r;
      CopyTruthy(next, p, fields[1..])
  }

  /** The button's handler; without a profile it does nothing. */
  function FillFromProfile(r: Resume, profile: Option<Profile>): (r': Resume)
    ensures profile.None? ==> r' == r
    ensures SameOutsideContact(r, r')
    ensures profile.Some? ==> forall f :: ResumeContact(r', f) == FilledValue(r, profile.value, f)
  {
    ContactFieldsComplete();
    match profile
    case None => r
    case Some(p) => CopyTruthy(r, p, ContactFields)
  }

  /** Pressing the button twice is pressing it once. */
  lemma FillIdempotent(r: Resume, profile: Option<Profile>)
    ensures FillFromProfile(FillFromProfile(r, profile), profile) == FillFromProfile(r, profile)
  {
    var once := FillFromProfile(r, profile);
    var twice := FillFromProfile(once, profile);
    if profile.Some? {
      ContactExtensionality(once, twice);
    }
  }

  /** An empty or null profile value never erases what the resume has. */
  lemma FillKeepsOwnValues(r: Resume, p: Profile, f: ContactField)
    requires !Truthy(ProfileContact(p, f))
    ensures ResumeContact(FillFromProfile(r, Some(p)), f) == ResumeContact(r, f)
  {
  }

  /** After the button every contact field the profile fills is non-empty,
      and a profile with no usable contact value changes nothing. */
  lemma FillOutcome(r: Resume, p: Profile)
    ensures forall f :: Truthy(ProfileContact(p, f)) ==> Truthy(ResumeContact(FillFromProfile(r, Some(p)), f))
    ensures (forall f :: !Truthy(ProfileContact(p, f))) ==> FillFromProfile(r, Some(p)) == r
  {
    var r' := FillFromProfile(r, Some(p));
    if forall f :: !Truthy(ProfileContact(p, f)) {
      ContactExtensionality(r, r');
    }
  }
}
