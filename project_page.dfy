/**
 * The project page at `/work/:slug`: the route parameter is looked up in
 * the catalogue, a miss redirects to the work listing, a hit renders the
 * project with a link to the next one (cyclically), and a floating back
 * link docks at the end of the page content.
 */
module ProjectPage {
  import opened Text
  import opened Projects
  import opened Docking
  import opened Cycle

  /** The work listing, target of the redirect and of the back link. */
  const WorkRoute := "/work"

  predicate DistinctSlugs(ps: seq<Project>) {
    forall i, j :: 0 <= i < j < |ps| ==> ps[i].slug != ps[j].slug
  }

  /** `findIndex(p => p.slug === slug)`: the first project whose slug is the
      parameter, or -1. A missing parameter (`undefined`) matches nothing. */
  function FindIndex(ps: seq<Project>, slug: Option<string>): (i: int)
    ensures -1 <= i < |ps|
    ensures i >= 0 ==> slug == Some(ps[i].slug)
    ensures i >= 0 ==> forall j :: 0 <= j < i ==> Some(ps[j].slug) != slug
    ensures i == -1 <==> forall j :: 0 <= j < |ps| ==> Some(ps[j].slug) != slug
  {
    if ps == [] then -1
    else if Some(ps[0].slug) == slug then 0
    else
      var r := FindIndex(ps[1..], slug);
      if r == -1 then -1 else r + 1
  }

  /** With distinct slugs, looking up a project's own slug finds it. */
  lemma FindOwnSlug(ps: seq<Project>, i: int)
    requires DistinctSlugs(ps) && 0 <= i < |ps|
    ensures FindIndex(ps, Some(ps[i].slug)) == i
  {
  }

  datatype Outcome =
    | Redirect(to: string)
    | Render(project: Project, next: Project)

  /** What the page does with the route parameter: `Navigate` to the work
      listing when no project has that slug, otherwise the project and the
      one after it, `(projectIndex + 1) % projectsData.length`. */
  function Resolve(ps: seq<Project>, slug: Option<string>): (o: Outcome)
    ensures o.Redirect? <==> forall j :: 0 <= j < |ps| ==> Some(ps[j].slug) != slug
    ensures o.Redirect? ==> o.to == WorkRoute
    ensures o.Render? ==>
      var i := FindIndex(ps, slug);
      0 <= i < |ps| && o.project == ps[i] && o.next == ps[Next(i, |ps|)]
  {
    var i := FindIndex(ps, slug);
    if i == -1 then Redirect(WorkRoute)
    else Render(ps[i], ps[Next(i, |ps|)])
  }

  /** `/work/<slug>`, the path of the next-project link. */
  function NextLink(o: Outcome): (path: string)
    requires o.Render?
    ensures StartsWith(path, "/work/") && path[6..] == o.next.slug
  {
    "/work/" + o.next.slug
  }

  /** On the catalogue, every project's own page renders it, and the next
      link of the last project leads back to the first. */
  lemma CatalogueRoutes(i: int)
    requires 0 <= i < |ProjectsData|
    ensures Resolve(ProjectsData, Some(ProjectsData[i].slug))
      == Render(ProjectsData[i], ProjectsData[(i + 1) % |ProjectsData|])
    ensures i == |ProjectsData| - 1 ==>
      Resolve(ProjectsData, Some(ProjectsData[i].slug)).next == ProjectsData[0]
  {
    SlugsDistinct();
    FindOwnSlug(ProjectsData, i);
  }

  /** With distinct slugs, following a page's next link renders the project
      after it. */
  lemma {:induction false} FollowNext(ps: seq<Project>, i: int)
    requires DistinctSlugs(ps) && 0 <= i < |ps|
    ensures
      var o := Resolve(ps, Some(ps[i].slug));
      o.Render? && Resolve(ps, Some(NextLink(o)[6..])).project == ps[Next(i, |ps|)]
  {
    FindOwnSlug(ps, i);
    FindOwnSlug(ps, Next(i, |ps|));
  }

  /** The floating "Back to all works" link; its inline style is written by
      the content zone's scroll handlers. */
  class BackLink {
    const target: string
    const element: ButtonElement

    constructor ()
      ensures target == WorkRoute
      ensures fresh(element) && element.position == Unset && element.bottomRem == None
    {
      target := WorkRoute;
      element := new ButtonElement(true);
    }

    /** Scrolling back into the content pins the link to the viewport. */
    method ContentEnterBack()
      modifies element
      ensures element.position == Fixed && element.bottomRem == Some(2)
      ensures element.shown == old(element.shown)
    {
      element.Place(Fixed, 2);
    }

    /** Scrolling past the end of the content docks the link there. */
    method ContentLeave()
      modifies element
      ensures element.position == Absolute && element.bottomRem == Some(2)
      ensures element.shown == old(element.shown)
    {
      element.Place(Absolute, 2);
    }
  }
}
