/**
 * The site header: which page the path names, whether the header and its
 * logo are visible, the hero-done flag raised by the home page's intro,
 * and the mobile menu. The scroll handler is re-run whenever one of the
 * values it depends on changes, and on every scroll event.
 */
module Header {
  import opened Text

  /** The page flags computed from `location.pathname`. */
  datatype Route = Route(home: bool, work: bool, process: bool, studio: bool, contact: bool)

  /** The work page is any path under `/work`; the others match exactly. */
  function RouteOf(path: string): (r: Route)
    ensures r.home <==> path == "/"
    ensures r.work <==> StartsWith(path, "/work")
    ensures r.process <==> path == "/process"
    ensures r.studio <==> path == "/studio"
    ensures r.contact <==> path == "/contact"
  {
    Route(path == "/", StartsWith(path, "/work"), path == "/process", path == "/studio", path == "/contact")
  }

  /** A path names at most one page. */
  lemma RouteExclusive(path: string)
    ensures var r := RouteOf(path);
      (if r.home then 1 else 0) + (if r.work then 1 else 0) + (if r.process then 1 else 0)
      + (if r.studio then 1 else 0) + (if r.contact then 1 else 0) <= 1
  {
    var r := RouteOf(path);
    if r.work {
      assert path[1] == 'w';
    }
  }

  /** Pages on which the header never hides: the inner pages, and the home
      page once its intro has finished. */
  predicate AlwaysVisible(r: Route, heroDone: bool) {
    r.work || r.process || r.studio || r.contact || (r.home && heroDone)
  }

  /** The visibility `handleScroll` decides when the menu is closed; the
      threshold `scrollY > 0.95 * innerHeight` is kept in integers. */
  function Decide(r: Route, heroDone: bool, scrollY: int, innerHeight: int): (visible: bool)
    ensures AlwaysVisible(r, heroDone) ==> visible
    ensures !AlwaysVisible(r, heroDone) ==> (visible <==> 100 * scrollY > 95 * innerHeight)
  {
    AlwaysVisible(r, heroDone) || 100 * scrollY > 95 * innerHeight
  }

  /** Scrolling further down never hides a header that is shown. */
  lemma DecideMonotone(r: Route, heroDone: bool, y: int, y': int, h: int)
    requires y <= y' && Decide(r, heroDone, y, h)
    ensures Decide(r, heroDone, y', h)
  {
  }

  /** On the home page before the intro ends, the header is hidden at the
      top and shown once a whole viewport has been scrolled. */
  lemma HomeThreshold(h: int)
    requires h > 0
    ensures !Decide(RouteOf("/"), false, 0, h)
    ensures Decide(RouteOf("/"), false, h, h)
  {
    assert !StartsWith("/", "/work");
  }

  /** The menu button's label. */
  function MenuLabel(open: bool): (s: string)
    ensures open <==> s == "Close"
    ensures !open <==> s == "Menu"
  {
    if open then "Close" else "Menu"
  }

  class HeaderState {
    var path: string
    var scrollY: int
    var innerHeight: int
    var isVisible: bool
    var isLogoVisible: bool
    var isHeroDone: bool
    var isMenuOpen: bool

    /** Header and logo always agree; with the menu closed they show what
        the visibility rule decides for the current page and scroll. */
    predicate Valid()
      reads this
    {
      isVisible == isLogoVisible
      && (!isMenuOpen ==> isVisible == Decide(RouteOf(path), isHeroDone, scrollY, innerHeight))
    }

    /** Mounting: every flag starts false, then the scroll handler runs once. */
    constructor (path: string, scrollY: int, innerHeight: int)
      ensures Valid()
      ensures this.path == path && this.scrollY == scrollY && this.innerHeight == innerHeight
      ensures !isHeroDone && !isMenuOpen
      ensures isVisible == Decide(RouteOf(path), false, scrollY, innerHeight)
    {
      this.path := path;
      this.scrollY := scrollY;
      this.innerHeight := innerHeight;
      isHeroDone := false;
      isMenuOpen := false;
      isVisible := false;
      isLogoVisible := false;
      new;
      HandleScroll();
    }

    /** `handleScroll`: nothing while the menu is open, otherwise header and
        logo take the decided visibility. */
    method HandleScroll()
      modifies this
      ensures isMenuOpen ==> isVisible == old(isVisible) && isLogoVisible == old(isLogoVisible)
      ensures !isMenuOpen ==>
        isVisible == isLogoVisible == Decide(RouteOf(path), isHeroDone, scrollY, innerHeight)
      ensures path == old(path) && scrollY == old(scrollY) && innerHeight == old(innerHeight)
      ensures isHeroDone == old(isHeroDone) && isMenuOpen == old(isMenuOpen)
    {
      if isMenuOpen {
        return;
      }
      if AlwaysVisible(RouteOf(path), isHeroDone) {
        isVisible := true;
        isLogoVisible := true;
        return;
      }
      if 100 * scrollY > 95 * innerHeight {
        isVisible := true;
        isLogoVisible := true;
      } else {
        isVisible := false;
        isLogoVisible := false;
      }
    }

    /** A scroll event. */
    method Scroll(y: int, h: int)
      requires Valid()
      modifies this
      ensures Valid()
      ensures scrollY == y && innerHeight == h
      ensures isMenuOpen ==> isVisible == old(isVisible)
      ensures path == old(path) && isHeroDone == old(isHeroDone) && isMenuOpen == old(isMenuOpen)
    {
      scrollY := y;
      innerHeight := h;
      HandleScroll();
    }

    /** The `heroDone` window event raises the flag; the handler re-runs
        when the flag changes. */
    method HeroDone()
      requires Valid()
      modifies this
      ensures Valid()
      ensures isHeroDone
      ensures isMenuOpen ==> isVisible == old(isVisible)
      ensures path == old(path) && scrollY == old(scrollY) && isMenuOpen == old(isMenuOpen)
    {
      if !isHeroDone {
        isHeroDone := true;
        HandleScroll();
      }
    }

    /** The menu button flips the menu; the handler re-runs, and only
        updates visibility when the menu has closed. */
    method ToggleMenu()
      requires Valid()
      modifies this
      ensures Valid()
      ensures isMenuOpen == !old(isMenuOpen)
      ensures isMenuOpen ==> isVisible == old(isVisible)
      ensures path == old(path) && scrollY == old(scrollY) && isHeroDone == old(isHeroDone)
    {
      isMenuOpen := !isMenuOpen;
      HandleScroll();
    }

    /** A location change: the menu closes, leaving the home page clears the
        hero-done flag, and the handler re-runs if any flag it reads changed. */
    method Navigate(newPath: string)
      requires Valid()
      modifies this
      ensures Valid()
      ensures path == newPath && !isMenuOpen
      ensures isHeroDone == (old(isHeroDone) && (newPath == "/" || old(path) != "/"))
      ensures isVisible == Decide(RouteOf(newPath), isHeroDone, scrollY, innerHeight)
      ensures scrollY == old(scrollY) && innerHeight == old(innerHeight)
    {
      var before := (RouteOf(path), isHeroDone, isMenuOpen);
      var wasHome := RouteOf(path).home;
      path := newPath;
      isMenuOpen := false;
      if wasHome && !RouteOf(path).home {
        isHeroDone := false;
      }
      if (RouteOf(path), isHeroDone, isMenuOpen) != before {
        HandleScroll();
      }
    }
  }
}
