/** The profile page's free-form profile (`UserProfile`): its project list
    (`src/components/profile/profile-projects.tsx`) and the reset dialog
    (`src/components/profile/reset-profile.tsx`). The declaration of
    `UserProfile` is not part of this model; the fields below are the ones
    those two components read and write, list entries the reset clears
    are kept as text, and every other field is carried in `others`. */
module UserProfiles {
  import Lists

  datatype UserProfile = UserProfile(
    id: string,
    first_name: string,
    last_name: string,
    email: string,
    Github: string,
    Linkedin: string,
    Portfolio: string,
    skills: seq<string>,
    work_history: seq<string>,
    projects: seq<string>,
    education_history: seq<string>,
    others: map<string, string>)

  /** Two profiles agree on everything but the project list. */
  predicate SameOutsideProjects(p: UserProfile, q: UserProfile) {
    q == p.(projects := q.projects)
  }

  /** `handleProjectChange`: the text area at `index` writes its text. The
      text areas exist only for rendered projects, so `index` is in range. */
  function ChangeProject(p: UserProfile, index: int, text: string): (q: UserProfile)
    requires 0 <= index < |p.projects|
    ensures SameOutsideProjects(p, q)
    ensures |q.projects| == |p.projects| && q.projects[index] == text
    ensures forall i :: 0 <= i < |p.projects| && i != index ==> q.projects[i] == p.projects[i]
  {
    p.(projects := p.projects[index := text])
  }

  /** `handleAddProject`: an empty entry at the end. */
  function AddProject(p: UserProfile): (q: UserProfile)
    ensures SameOutsideProjects(p, q)
    ensures |q.projects| == |p.projects| + 1
    ensures q.projects[..|p.projects|] == p.projects && q.projects[|p.projects|] == ""
  {
    p.(projects := p.projects + [""])
  }

  /** `handleRemoveProject`: `filter((_, i) => i !== index)`. */
  function RemoveProject(p: UserProfile, index: int): (q: UserProfile)
    ensures SameOutsideProjects(p, q)
    ensures 0 <= index < |p.projects| ==> q.projects == p.projects[..index] + p.projects[index + 1..]
    ensures !(0 <= index < |p.projects|) ==> q == p
  {
    p.(projects := Lists.RemoveIndex(p.projects, index))
  }

  /** Adding an entry and removing it again restores the profile; editing
      an entry and editing it back does too. */
  lemma ProjectEditsUndo(p: UserProfile, index: int, text: string)
    requires 0 <= index < |p.projects|
    ensures RemoveProject(AddProject(p), |p.projects|) == p
    ensures ChangeProject(ChangeProject(p, index, text), index, p.projects[index]) == p
  {
    assert (p.projects + [""])[..|p.projects|] == p.projects;
  }

  // ---------------------------------------------------------------------
  // Reset dialog

  /** The profile the reset leaves: every listed text field empty, every
      list empty, `id` and `others` as they were. */
  predicate IsCleared(q: UserProfile) {
    && q.first_name == "" && q.last_name == "" && q.email == ""
    && q.Github == "" && q.Linkedin == "" && q.Portfolio == ""
    && q.skills == [] && q.work_history == [] && q.projects == [] && q.education_history == []
  }

  /** `handleClearProfile`'s `setProfile` call. */
  function Clear(p: UserProfile): (q: UserProfile)
    ensures IsCleared(q)
    ensures q.id == p.id && q.others == p.others
  {
    p.(first_name := "", last_name := "", email := "", Github := "", Linkedin := "",
       Portfolio := "", skills := [], work_history := [], projects := [], education_history := [])
  }

  /** Clearing is idempotent, and a cleared profile is determined by what
      the reset keeps. */
  lemma ClearIdempotent(p: UserProfile)
    ensures Clear(Clear(p)) == Clear(p)
  {
  }

  lemma ClearedProfilesAgree(p: UserProfile, q: UserProfile)
    requires p.id == q.id && p.others == q.others
    ensures Clear(p) == Clear(q)
  {
  }

  /** A profile already cleared is a fixed point. */
  lemma ClearFixesCleared(p: UserProfile)
    requires IsCleared(p)
    ensures Clear(p) == p
  {
  }

  /** The dialog: its open flag and the profile it edits. */
  datatype ResetDialog = ResetDialog(open: bool, profile: UserProfile)

  datatype DialogAction = OpenDialog | CancelReset | ConfirmReset

  function Step(d: ResetDialog, a: DialogAction): (d': ResetDialog)
    ensures a == OpenDialog ==> d' == d.(open := true)
    ensures a == CancelReset ==> d' == d.(open := false)
    ensures a == ConfirmReset ==> !d'.open && IsCleared(d'.profile)
    ensures a == ConfirmReset ==> d'.profile.id == d.profile.id && d'.profile.others == d.profile.others
  {
    match a
    case OpenDialog => d.(open := true)
    case CancelReset => d.(open := false)
    case ConfirmReset => ResetDialog(false, Clear(d.profile))
  }

  /** Only the confirm button touches the profile. */
  lemma OnlyConfirmClears(d: ResetDialog, a: DialogAction)
    ensures a != ConfirmReset ==> Step(d, a).profile == d.profile
    ensures a == ConfirmReset ==> Step(d, a).profile == Clear(d.profile)
  {
  }
}
