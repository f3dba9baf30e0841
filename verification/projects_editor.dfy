/** The project list editor (`src/components/editor/projects.tsx`). It
    works on the resume's `projects` list only; every other field of the
    resume is copied through unchanged, so the operations here take and
    return that list. */
module ProjectsEditor {
  import opened Wrappers
  import opened Strings
  import Lists

  /** A project as this editor sees it. */
  datatype EditorProject = EditorProject(
    name: string,
    description: string,
    accomplishments: seq<string>,
    technologies: seq<string>,
    url: Option<string>)

  /** The project "Add Project" appends. */
  const EmptyProject := EditorProject("", "", [], [], None)

  /** One call of `handleArrayChange(index, field, value)`. */
  datatype ProjectEdit =
    | SetName(name: string)
    | SetDescription(description: string)
    | SetTechnologies(technologies: seq<string>)
    | SetUrl(url: string)
    | SetAccomplishments(accomplishments: seq<string>)

  /** `{ ...project, [field]: value }`: the named field takes the value and
      every other field keeps its own. */
  function ApplyEdit(p: EditorProject, e: ProjectEdit): (q: EditorProject)
    ensures e.SetName? ==> q.name == e.name
    ensures e.SetDescription? ==> q.description == e.description
    ensures e.SetTechnologies? ==> q.technologies == e.technologies
    ensures e.SetUrl? ==> q.url == Some(e.url)
    ensures e.SetAccomplishments? ==> q.accomplishments == e.accomplishments
    ensures e.SetName? || q.name == p.name
    ensures e.SetDescription? || q.description == p.description
    ensures e.SetTechnologies? || q.technologies == p.technologies
    ensures e.SetUrl? || q.url == p.url
    ensures e.SetAccomplishments? || q.accomplishments == p.accomplishments
  {
    match e
    case SetName(v) => p.(name := v)
    case SetDescription(v) => p.(description := v)
    case SetTechnologies(v) => p.(technologies := v)
    case SetUrl(v) => p.(url := Some(v))
    case SetAccomplishments(v) => p.(accomplishments := v)
  }

  /** `handleArrayChange`: the project at `index` is edited, every other
      project is left as it was. The inputs that call it exist only for
      rendered projects, so `index` is in range. */
  function ChangeProject(ps: seq<EditorProject>, index: int, e: ProjectEdit): (r: seq<EditorProject>)
    requires 0 <= index < |ps|
    ensures |r| == |ps|
    ensures r[index] == ApplyEdit(ps[index], e)
    ensures forall i :: 0 <= i < |ps| && i != index ==> r[i] == ps[i]
  {
    ps[index := ApplyEdit(ps[index], e)]
  }

  /** `handleAddAccomplishment`: an empty accomplishment is appended to the
      project at `index`. */
  function AddAccomplishment(ps: seq<EditorProject>, index: int): (r: seq<EditorProject>)
    requires 0 <= index < |ps|
    ensures |r| == |ps|
    ensures r[index].accomplishments == ps[index].accomplishments + [""]
    ensures r[index] == ps[index].(accomplishments := r[index].accomplishments)
    ensures forall i :: 0 <= i < |ps| && i != index ==> r[i] == ps[i]
  {
    ps[index := ps[index].(accomplishments := ps[index].accomplishments + [""])]
  }

  /** `handleRemoveAccomplishment`: `splice(accIndex, 1)` on the project's
      accomplishments. */
  function RemoveAccomplishment(ps: seq<EditorProject>, index: int, accIndex: int): (r: seq<EditorProject>)
    requires 0 <= index < |ps|
    ensures |r| == |ps|
    ensures r[index] == ps[index].(accomplishments := Lists.SpliceOne(ps[index].accomplishments, accIndex))
    ensures forall i :: 0 <= i < |ps| && i != index ==> r[i] == ps[i]
  {
    ps[index := ps[index].(accomplishments := Lists.SpliceOne(ps[index].accomplishments, accIndex))]
  }

  /** The accomplishment input: the copied list with one entry replaced,
      written back through `handleArrayChange`. */
  function EditAccomplishment(ps: seq<EditorProject>, index: int, accIndex: int, text: string)
    : (r: seq<EditorProject>)
    requires 0 <= index < |ps|
    requires 0 <= accIndex < |ps[index].accomplishments|
    ensures |r| == |ps| && |r[index].accomplishments| == |ps[index].accomplishments|
    ensures r[index].accomplishments[accIndex] == text
    ensures forall k :: 0 <= k < |ps[index].accomplishments| && k != accIndex ==>
              r[index].accomplishments[k] == ps[index].accomplishments[k]
    ensures r[index] == ps[index].(accomplishments := r[index].accomplishments)
    ensures forall i :: 0 <= i < |ps| && i != index ==> r[i] == ps[i]
  {
    var acc := ps[index].accomplishments[accIndex := text];
    ChangeProject(ps, index, SetAccomplishments(acc))
  }

  /** `handleAddProject`. */
  function AddProject(ps: seq<EditorProject>): (r: seq<EditorProject>)
    ensures |r| == |ps| + 1 && r[..|ps|] == ps
    ensures r[|ps|] == EmptyProject
  {
    ps + [EmptyProject]
  }

  /** `handleRemoveProject`: `filter((_, i) => i !== index)`. */
  function RemoveProject(ps: seq<EditorProject>, index: int): (r: seq<EditorProject>)
    ensures 0 <= index < |ps| ==> |r| == |ps| - 1
    ensures 0 <= index < |ps| ==> forall i :: 0 <= i < |r| ==>
              r[i] == (if i < index then ps[i] else ps[i + 1])
    ensures !(0 <= index < |ps|) ==> r == ps
  {
    Lists.RemoveIndex(ps, index)
  }

  /** Adding a project and removing the new last one is a no-op. */
  lemma AddThenRemoveProject(ps: seq<EditorProject>)
    ensures RemoveProject(AddProject(ps), |ps|) == ps
  {
  }

  /** Adding an accomplishment and removing the new last one (by its index
      or by -1) is a no-op. */
  lemma AddThenRemoveAccomplishment(ps: seq<EditorProject>, index: int)
    requires 0 <= index < |ps|
    ensures RemoveAccomplishment(AddAccomplishment(ps, index), index, |ps[index].accomplishments|) == ps
    ensures RemoveAccomplishment(AddAccomplishment(ps, index), index, -1) == ps
  {
    var acc := ps[index].accomplishments;
    var added := AddAccomplishment(ps, index);
    assert (acc + [""])[..|acc|] == acc;
    assert Lists.SpliceOne(acc + [""], |acc|) == acc;
    assert Lists.SpliceOne(acc + [""], -1) == acc;
    assert added[index].(accomplishments := acc) == ps[index];
    assert added[index := ps[index]] == ps;
  }

  /** The accomplishment delete button passes the rendered index, so it
      removes exactly that entry. */
  lemma RemoveRenderedAccomplishment(ps: seq<EditorProject>, index: int, accIndex: int)
    requires 0 <= index < |ps|
    requires 0 <= accIndex < |ps[index].accomplishments|
    ensures RemoveAccomplishment(ps, index, accIndex)[index].accomplishments ==
      Lists.RemoveIndex(ps[index].accomplishments, accIndex)
  {
    Lists.SpliceOneRemoves(ps[index].accomplishments, accIndex);
  }

  // ---------------------------------------------------------------------
  // The technologies text area

  /** The text area shows `technologies.join(', ')`. */
  function TechnologiesText(p: EditorProject): (t: string)
    ensures t == "" <==> p.technologies == [] || p.technologies == [""]
    ensures |p.technologies| == 1 ==> t == p.technologies[0]
    ensures |p.technologies| >= 2 ==> |t| >= |ListSeparator|
  {
    Join(p.technologies, ListSeparator)
  }

  /** Typing writes back `value.split(', ')`. */
  function TypeTechnologies(ps: seq<EditorProject>, index: int, text: string): (r: seq<EditorProject>)
    requires 0 <= index < |ps|
    ensures |r| == |ps| && |r[index].technologies| >= 1
    ensures r[index] == ps[index].(technologies := Split(text, ListSeparator))
    ensures forall i :: 0 <= i < |ps| && i != index ==> r[i] == ps[i]
  {
    ChangeProject(ps, index, SetTechnologies(Split(text, ListSeparator)))
  }

  /** Whatever is typed into the text area is what it shows next. */
  lemma TypedTextIsShown(ps: seq<EditorProject>, index: int, text: string)
    requires 0 <= index < |ps|
    ensures TechnologiesText(TypeTechnologies(ps, index, text)[index]) == text
  {
    JoinSplit(text, ListSeparator);
  }

  /** A non-empty technology list without ", " inside its entries survives
      being shown and typed back unchanged. */
  lemma ShownListIsKept(ps: seq<EditorProject>, index: int)
    requires 0 <= index < |ps|
    requires |ps[index].technologies| >= 1
    requires forall k :: 0 <= k < |ps[index].technologies| ==>
               !Contains(ps[index].technologies[k], ListSeparator)
    ensures TypeTechnologies(ps, index, TechnologiesText(ps[index])) == ps
  {
    SplitJoin(ps[index].technologies);
  }

  /** An empty technology list does not survive: it shows as "" and comes
      back as one empty entry. */
  lemma EmptyListComesBackAsOneEntry(ps: seq<EditorProject>, index: int)
    requires 0 <= index < |ps|
    requires ps[index].technologies == []
    ensures TypeTechnologies(ps, index, TechnologiesText(ps[index]))[index].technologies == [""]
  {
  }

  /** The URL input shows `project.url || ''`. */
  function UrlText(p: EditorProject): (t: string)
    ensures p.url.Some? ==> t == p.url.value
    ensures p.url.None? ==> t == ""
  {
    p.url.GetOr("")
  }
}
