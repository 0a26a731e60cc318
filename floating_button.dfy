/**
 * The home page's floating "Discover" button. Scroll zones set its label
 * and target id, the label rolls over to the new text after a short
 * animation, clicking dispatches on the displayed label, and two zones
 * show, hide and dock the button.
 */
module FloatingButton {
  import opened Text
  import opened Projects
  import opened Docking
  import ProjectPage

  const StudioLabel := "Studio"
  const VisionLabel := "Vision"
  const AllWorkLabel := "All Work"

  /** The projects that get a zone of their own, looked up by title. */
  const SelectedTitles: seq<string> := ["Loller", "Penthouse Vivace", "Southbank Tower"]

  /** `ps.find(p => p.title === title)`. */
  function FindByTitle(ps: seq<Project>, title: string): (r: Option<Project>)
    ensures r.Some? ==> r.value in ps && r.value.title == title
    ensures r.None? <==> forall j :: 0 <= j < |ps| ==> ps[j].title != title
  {
    if ps == [] then None
    else if ps[0].title == title then Some(ps[0])
    else FindByTitle(ps[1..], title)
  }

  /** A project preceded by no project of the same title is what the
      lookup by its title finds. */
  lemma {:induction false} FindByTitleAt(ps: seq<Project>, k: nat)
    requires k < |ps|
    requires forall j :: 0 <= j < k ==> ps[j].title != ps[k].title
    ensures FindByTitle(ps, ps[k].title) == Some(ps[k])
  {
    if k > 0 {
      FindByTitleAt(ps[1..], k - 1);
    }
  }

  /** The projects found for the given titles, in the titles' order; titles
      with no project get no zone. */
  function ZoneProjects(ps: seq<Project>, titles: seq<string>): (zs: seq<Project>)
    ensures |zs| <= |titles|
  {
    if titles == [] then []
    else
      var rest := ZoneProjects(ps, titles[1..]);
      match FindByTitle(ps, titles[0])
      case Some(p) => [p] + rest
      case None => rest
  }

  /** A zone exists exactly for each project that the lookup of one of the
      titles finds. */
  lemma {:induction false} ZoneProjectsMembers(ps: seq<Project>, titles: seq<string>, p: Project)
    ensures p in ZoneProjects(ps, titles) <==> exists t :: t in titles && FindByTitle(ps, t) == Some(p)
  {
    if titles != [] {
      ZoneProjectsMembers(ps, titles[1..], p);
      assert forall t :: t in titles <==> t == titles[0] || t in titles[1..];
    }
  }

  /** In the catalogue, every project is what the lookup by its title
      finds. */
  lemma CatalogueFindByTitle(k: nat)
    requires k < |ProjectsData|
    ensures FindByTitle(ProjectsData, ProjectsData[k].title) == Some(ProjectsData[k])
  {
    ParallelArraysFit();
    TitlesDistinct();
    forall j | 0 <= j < k
      ensures ProjectsData[j].title != ProjectsData[k].title
    {
      RecordIdentity(j);
      RecordIdentity(k);
    }
    FindByTitleAt(ProjectsData, k);
  }

  /** When each of three titles is found, there are three zones in the
      titles' order. */
  lemma ZonesAllFound(ps: seq<Project>, ts: seq<string>, a: Project, b: Project, c: Project)
    requires |ts| == 3
    requires FindByTitle(ps, ts[0]) == Some(a)
    requires FindByTitle(ps, ts[1]) == Some(b)
    requires FindByTitle(ps, ts[2]) == Some(c)
    ensures ZoneProjects(ps, ts) == [a, b, c]
  {
    var t1 := ts[1..];
    var t2 := t1[1..];
    assert t1[0] == ts[1] && t2[0] == ts[2] && t2[1..] == [];
    assert ZoneProjects(ps, t2) == [c];
    assert ZoneProjects(ps, t1) == [b, c];
  }

  /** The selected titles are those of table rows 5, 2 and 3. */
  lemma SelectedRows()
    ensures SelectedTitles == [Table[5].title, Table[2].title, Table[3].title]
  {
  }

  /** On the catalogue all three titles are found, so the zones are the
      projects of rows 5, 2 and 3, in that order. */
  lemma CatalogueZones()
    ensures ZoneProjects(ProjectsData, SelectedTitles) == [ProjectsData[5], ProjectsData[2], ProjectsData[3]]
  {
    ParallelArraysFit();
    SelectedRows();
    RecordIdentity(5);
    RecordIdentity(2);
    RecordIdentity(3);
    CatalogueFindByTitle(5);
    CatalogueFindByTitle(2);
    CatalogueFindByTitle(3);
    ZonesAllFound(ProjectsData, SelectedTitles, ProjectsData[5], ProjectsData[2], ProjectsData[3]);
  }

  /** What a click does: navigate (and scroll to the top), scroll a section
      of the page into view, or nothing. */
  datatype Action = Navigate(path: string) | ScrollIntoView(id: string) | NoAction

  /** The click handler's dispatch on the displayed label, then on the target
      id; `present` holds the ids of the elements on the page. */
  function Click(ps: seq<Project>, text: string, id: string, present: set<string>): (a: Action)
    ensures text == StudioLabel ==> a == Navigate("/studio")
    ensures text == VisionLabel ==> a == Navigate("/process")
    ensures text == AllWorkLabel ==> a == Navigate("/work")
    ensures text !in {StudioLabel, VisionLabel, AllWorkLabel} ==>
      match FindByTitle(ps, text)
      case Some(p) => a == Navigate("/work/" + p.slug)
      case None =>
        a == if Contains(id, "-section") && id in present then ScrollIntoView(id) else NoAction
    ensures a.ScrollIntoView? ==> a.id == id && id in present && Contains(id, "-section")
  {
    if text == StudioLabel then Navigate("/studio")
    else if text == VisionLabel then Navigate("/process")
    else if text == AllWorkLabel then Navigate("/work")
    else match FindByTitle(ps, text)
      case Some(p) => Navigate("/work/" + p.slug)
      case None =>
        if Contains(id, "-section") && id in present then ScrollIntoView(id) else NoAction
  }

  /** No catalogue title is one of the fixed labels. */
  lemma TitlesAreNotLabels()
    ensures forall i :: 0 <= i < |Table| ==> Table[i].title !in {StudioLabel, VisionLabel, AllWorkLabel}
  {
  }

  /** Clicking while a catalogue project's title is displayed opens that
      project's page. */
  lemma ClickOpensProject(i: nat, id: string, present: set<string>)
    requires i < |ProjectsData|
    ensures
      var a := Click(ProjectsData, ProjectsData[i].title, id, present);
      a.Navigate? && StartsWith(a.path, "/work/")
      && ProjectPage.Resolve(ProjectsData, Some(a.path[6..]))
           == ProjectPage.Render(ProjectsData[i], ProjectsData[(i + 1) % |ProjectsData|])
  {
    var p := FindByTitle(ProjectsData, ProjectsData[i].title).value;
    assert p in ProjectsData;
    var k :| 0 <= k < |ProjectsData| && ProjectsData[k] == p;
    ParallelArraysFit();
    TitlesDistinct();
    RecordIdentity(i);
    RecordIdentity(k);
    assert k == i;
    TitlesAreNotLabels();
    ProjectPage.CatalogueRoutes(i);
    assert ("/work/" + p.slug)[6..] == p.slug;
  }

  /** Clicking with a section label that is no project title scrolls that
      section into view. */
  lemma ClickScrollsToSection(ps: seq<Project>, text: string, id: string, present: set<string>)
    requires text !in {StudioLabel, VisionLabel, AllWorkLabel}
    requires forall j :: 0 <= j < |ps| ==> ps[j].title != text
    requires Contains(id, "-section")
    ensures Click(ps, text, id, present) == if id in present then ScrollIntoView(id) else NoAction
  {
  }

  /** The scroll zones that drive the button. */
  datatype Zone =
    | AboutZone
    | ProjectZone(project: Project)
    | AllWorkZone
    | VisionZone
    | MethodZone

  /** The label and target id a zone sets when scrolled into. */
  function ZoneTarget(z: Zone): (r: Option<(string, string)>)
    ensures r.None? <==> z.MethodZone?
    ensures z.ProjectZone? ==> r == Some((z.project.title, z.project.slug))
    ensures z.AboutZone? ==> r == Some((StudioLabel, "about-section"))
    ensures z.AllWorkZone? ==> r == Some((AllWorkLabel, "all-work-section"))
    ensures z.VisionZone? ==> r == Some((VisionLabel, "vision-section"))
  {
    match z
    case AboutZone => Some((StudioLabel, "about-section"))
    case ProjectZone(p) => Some((p.title, p.slug))
    case AllWorkZone => Some((AllWorkLabel, "all-work-section"))
    case VisionZone => Some((VisionLabel, "vision-section"))
    case MethodZone => None
  }

  class Button {
    const catalogue: seq<Project>
    const element: ButtonElement
    /** The label on screen (`currentText`). */
    var currentText: string
    /** The click target (`currentId`). */
    var currentId: string
    /** The label most recently requested (`currentTextRef`). */
    var labelRef: string
    /** Labels whose roll animation has not reached its text swap yet, in
        the order they were requested. */
    var pending: seq<string>

    /** Once every roll has swapped its text, the screen shows the label
        most recently requested. */
    predicate Valid()
      reads this
    {
      if pending == [] then currentText == labelRef else pending[|pending| - 1] == labelRef
    }

    /** The button starts hidden, reading "Studio" and targeting the about
        section. */
    constructor (catalogue: seq<Project>)
      ensures Valid() && this.catalogue == catalogue
      ensures currentText == StudioLabel && labelRef == StudioLabel && currentId == "about-section"
      ensures pending == []
      ensures fresh(element) && !element.shown && element.position == Unset && element.bottomRem == None
    {
      this.catalogue := catalogue;
      currentText := StudioLabel;
      currentId := "about-section";
      labelRef := StudioLabel;
      pending := [];
      element := new ButtonElement(false);
    }

    /** `updateText`: a request for the label already requested changes
        nothing; any other sets the target at once and starts a roll that
        will show the new label. */
    method UpdateText(text: string, id: string)
      requires Valid()
      modifies this
      ensures Valid()
      ensures text == old(labelRef) ==>
        labelRef == old(labelRef) && currentId == old(currentId) && pending == old(pending)
      ensures text != old(labelRef) ==>
        labelRef == text && currentId == id && pending == old(pending) + [text]
      ensures currentText == old(currentText)
    {
      if text == labelRef {
        return;
      }
      labelRef := text;
      currentId := id;
      pending := pending + [text];
    }

    /** The oldest roll reaches its `setCurrentText` call. */
    method CompleteRoll()
      requires Valid() && pending != []
      modifies this
      ensures Valid()
      ensures currentText == old(pending[0]) && pending == old(pending[1..])
      ensures labelRef == old(labelRef) && currentId == old(currentId)
    {
      currentText := pending[0];
      pending := pending[1..];
    }

    /** `onEnter` of a zone: the about zone also animates the button in. */
    method Enter(z: Zone)
      requires Valid()
      requires z.ProjectZone? ==> z.project in ZoneProjects(catalogue, SelectedTitles)
      modifies this, element
      ensures Valid()
      ensures z.AboutZone? ==> element.shown
      ensures !z.AboutZone? ==> element.shown == old(element.shown)
      ensures element.position == old(element.position) && element.bottomRem == old(element.bottomRem)
      ensures ZoneTarget(z).Some? && ZoneTarget(z).value.0 != old(labelRef) ==>
        labelRef == ZoneTarget(z).value.0 && currentId == ZoneTarget(z).value.1
        && pending == old(pending) + [ZoneTarget(z).value.0]
      ensures ZoneTarget(z).None? || ZoneTarget(z).value.0 == old(labelRef) ==>
        labelRef == old(labelRef) && currentId == old(currentId) && pending == old(pending)
      ensures currentText == old(currentText)
    {
      if z.AboutZone? {
        element.Show();
      }
      match ZoneTarget(z)
      case Some(t) => UpdateText(t.0, t.1);
      case None =>
    }

    /** `onEnterBack`: text zones request their label again; the method zone
        pins the button to the viewport. */
    method EnterBack(z: Zone)
      requires Valid()
      requires z.ProjectZone? ==> z.project in ZoneProjects(catalogue, SelectedTitles)
      modifies this, element
      ensures Valid()
      ensures element.shown == old(element.shown)
      ensures z.MethodZone? ==> element.position == Fixed && element.bottomRem == Some(2)
      ensures !z.MethodZone? ==>
        element.position == old(element.position) && element.bottomRem == old(element.bottomRem)
      ensures ZoneTarget(z).Some? && ZoneTarget(z).value.0 != old(labelRef) ==>
        labelRef == ZoneTarget(z).value.0 && currentId == ZoneTarget(z).value.1
        && pending == old(pending) + [ZoneTarget(z).value.0]
      ensures ZoneTarget(z).None? || ZoneTarget(z).value.0 == old(labelRef) ==>
        labelRef == old(labelRef) && currentId == old(currentId) && pending == old(pending)
      ensures currentText == old(currentText)
    {
      match ZoneTarget(z)
      case Some(t) => UpdateText(t.0, t.1);
      case None => element.Place(Fixed, 2);
    }

    /** `onLeave`: only the method zone reacts, docking the button at the
        end of the section. */
    method Leave(z: Zone)
      modifies element
      ensures element.shown == old(element.shown)
      ensures z.MethodZone? ==> element.position == Absolute && element.bottomRem == Some(2)
      ensures !z.MethodZone? ==>
        element.position == old(element.position) && element.bottomRem == old(element.bottomRem)
    {
      if z.MethodZone? {
        element.Place(Absolute, 2);
      }
    }

    /** `onLeaveBack`: scrolling back above the about zone animates the
        button out. */
    method LeaveBack(z: Zone)
      modifies element
      ensures z.AboutZone? ==> !element.shown
      ensures !z.AboutZone? ==> element.shown == old(element.shown)
      ensures element.position == old(element.position) && element.bottomRem == old(element.bottomRem)
    {
      if z.AboutZone? {
        element.Hide();
      }
    }

    /** The click handler, reading the displayed label and the target. */
    function OnClick(present: set<string>): (a: Action)
      reads this
      ensures Valid() && pending == [] ==> a == Click(catalogue, labelRef, currentId, present)
    {
      Click(catalogue, currentText, currentId, present)
    }
  }
}
