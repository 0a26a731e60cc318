/**
 * The work listing: per-category counts with an `All Work` total, the
 * category filter, the repeating 2-3-1 grid with its alternating aspect
 * classes, the hover-preview image index of a project card, and the page's
 * filter-panel, view-mode and docking state.
 */
module WorkPage {
  import opened Text
  import opened Projects
  import opened Docking

  const AllWork := "All Work"

  // ----------------------------------------------------- category counts

  /** Some project has category `c`. */
  predicate HasCategory(ps: seq<Project>, c: string) {
    exists i :: 0 <= i < |ps| && ps[i].category == c
  }

  /** The number of projects of category `c`. */
  function CountOf(ps: seq<Project>, c: string): (n: nat)
    ensures n <= |ps|
    ensures n == 0 <==> !HasCategory(ps, c)
  {
    if ps == [] then 0
    else
      var n := CountOf(ps[..|ps| - 1], c);
      assert forall i :: 0 <= i < |ps| - 1 ==> ps[..|ps| - 1][i] == ps[i];
      n + if ps[|ps| - 1].category == c then 1 else 0
  }

  /** The keys of `categoryCounts` in insertion order (the order
      `Object.entries` lists them): `All Work` first, then each category at
      its first occurrence. */
  function KeyOrder(ps: seq<Project>): (ks: seq<string>)
    ensures |ks| >= 1 && ks[0] == AllWork
  {
    if ps == [] then [AllWork]
    else
      var ks := KeyOrder(ps[..|ps| - 1]);
      var c := ps[|ps| - 1].category;
      if c in ks then ks else ks + [c]
  }

  /** What `categoryCounts[k]` holds once every project is counted: the
      total for `All Work`, to which projects whose category is literally
      `All Work` are added, and the category's count for every other key. */
  function CountEntry(ps: seq<Project>, k: string): nat {
    (if k == AllWork then |ps| else 0) + CountOf(ps, k)
  }

  /** `categoryCounts`: a dictionary seeded with the total and incremented
      once per project under its category. */
  method CategoryCounts(ps: seq<Project>) returns (counts: map<string, nat>, keys: seq<string>)
    ensures keys == KeyOrder(ps)
    ensures counts.Keys == set k | k in keys
    ensures forall k :: k in counts ==> counts[k] == CountEntry(ps, k)
  {
    counts := map[AllWork := |ps|];
    keys := [AllWork];
    var i := 0;
    while i < |ps|
      invariant 0 <= i <= |ps|
      invariant keys == KeyOrder(ps[..i])
      invariant counts.Keys == set k | k in keys
      invariant forall k :: k in counts ==> counts[k] == (if k == AllWork then |ps| else 0) + CountOf(ps[..i], k)
    {
      var c := ps[i].category;
      assert ps[..i + 1][..i] == ps[..i];
      KeyOrderContents(ps[..i]);
      var current := if c in counts then counts[c] else 0;
      counts := counts[c := current + 1];
      if c !in keys {
        keys := keys + [c];
      }
      i := i + 1;
    }
    assert ps[..|ps|] == ps;
  }

  /** The keys are `All Work` followed by exactly the categories present,
      each listed once. */
  lemma {:induction false} KeyOrderContents(ps: seq<Project>)
    ensures forall k :: k in KeyOrder(ps) <==> k == AllWork || HasCategory(ps, k)
    ensures forall i, j :: 0 <= i < j < |KeyOrder(ps)| ==> KeyOrder(ps)[i] != KeyOrder(ps)[j]
  {
    if ps != [] {
      var pre := ps[..|ps| - 1];
      KeyOrderContents(pre);
      forall k
        ensures HasCategory(ps, k) <==> HasCategory(pre, k) || ps[|ps| - 1].category == k
      {
        if HasCategory(ps, k) {
          var i :| 0 <= i < |ps| && ps[i].category == k;
          if i < |ps| - 1 {
            assert pre[i] == ps[i];
          }
        }
        if HasCategory(pre, k) {
          var i :| 0 <= i < |pre| && pre[i].category == k;
          assert ps[i] == pre[i];
        }
      }
    }
  }

  /** Without a project whose category is literally `All Work`, the total
      is the number of projects. */
  lemma AllWorkTotal(ps: seq<Project>)
    requires !HasCategory(ps, AllWork)
    ensures CountEntry(ps, AllWork) == |ps|
  {
  }

  /** No category of the catalogue is literally `All Work`, so its total
      is the number of projects. */
  lemma CatalogueAllWork()
    ensures !HasCategory(ProjectsData, AllWork)
    ensures CountEntry(ProjectsData, AllWork) == |ProjectsData| == 18
  {
    ParallelArraysFit();
    TableCategories();
    forall i | 0 <= i < |ProjectsData|
      ensures ProjectsData[i].category != AllWork
    {
      RecordIdentity(i);
    }
  }

  // ------------------------------------------------------------ filtering

  /** `ps.filter(p => p.category === c)`. */
  function FilterCategory(ps: seq<Project>, c: string): (r: seq<Project>)
    ensures |r| == CountOf(ps, c)
    ensures forall p :: p in r ==> p in ps && p.category == c
  {
    if ps == [] then []
    else
      var r := FilterCategory(ps[..|ps| - 1], c);
      var last := ps[|ps| - 1];
      assert forall p :: p in ps[..|ps| - 1] ==> p in ps;
      if last.category == c then r + [last] else r
  }

  /** The filter keeps order: filtering a concatenation filters each part. */
  lemma {:induction false} FilterAppend(a: seq<Project>, b: seq<Project>, c: string)
    ensures FilterCategory(a + b, c) == FilterCategory(a, c) + FilterCategory(b, c)
    decreases |b|
  {
    if b == [] {
      assert a + b == a;
    } else {
      var b' := b[..|b| - 1];
      DropLastAppend(a, b);
      FilterAppend(a, b', c);
    }
  }

  /** A single project is kept exactly when its category matches. */
  lemma FilterSingle(p: Project, c: string)
    ensures FilterCategory([p], c) == if p.category == c then [p] else []
  {
    assert [p][..0] == [];
  }

  /** Projects of another category are all dropped; if every project has
      the category, the list comes back unchanged. */
  lemma {:induction false} FilterAll(ps: seq<Project>, c: string)
    requires forall i :: 0 <= i < |ps| ==> ps[i].category == c
    ensures FilterCategory(ps, c) == ps
  {
    if ps != [] {
      var pre := ps[..|ps| - 1];
      forall i | 0 <= i < |pre|
        ensures pre[i].category == c
      {
        assert pre[i] == ps[i];
      }
      FilterAll(pre, c);
      LastSplit(ps);
    }
  }

  /** `filteredProjects`. */
  function Filtered(ps: seq<Project>, active: string): (r: seq<Project>)
    ensures active == AllWork ==> r == ps
    ensures active != AllWork ==> |r| == CountOf(ps, active)
    ensures active != AllWork ==> forall p :: p in r ==> p in ps && p.category == active
  {
    if active == AllWork then ps else FilterCategory(ps, active)
  }

  /** The list shown has as many projects as the heading's count says. */
  lemma FilteredMatchesCount(ps: seq<Project>, active: string)
    requires !HasCategory(ps, AllWork)
    ensures |Filtered(ps, active)| == CountEntry(ps, active)
  {
  }

  /** `count.toString().padStart(2, '0')`. */
  function CountLabel(n: nat): (s: string)
    ensures |s| >= 2 && AllDigits(s)
    ensures ParseNat(s) == n
    ensures n < 10 ==> s == ['0', DigitChar(n)]
    ensures n >= 10 ==> s == NatToString(n)
  {
    var digits := NatToString(n);
    ParseNatToString(n);
    ParseNatLeadingZeros(|PadStart(digits, 2, '0')| - |digits|, digits);
    assert n < 10 ==> Repeat('0', 1) == ['0'];
    PadStart(digits, 2, '0')
  }

  // ----------------------------------------------------------------- grid

  /** The image classes a card can get. */
  datatype Aspect = FourThree | TwoOne | TwentyOneNine

  datatype Card = Card(project: Project, aspect: Aspect)

  /** One repetition of the layout: a row of two cards, a row of three and
      a row of one, each cut short when the list runs out. */
  datatype Group = Group(row1: seq<Card>, row2: seq<Card>, row3: seq<Card>)

  function CardsOf(g: Group): seq<Card> {
    g.row1 + g.row2 + g.row3
  }

  function ProjectsOf(cs: seq<Card>): (ps: seq<Project>)
    ensures |ps| == |cs| && forall i :: 0 <= i < |cs| ==> ps[i] == cs[i].project
  {
    if cs == [] then [] else [cs[0].project] + ProjectsOf(cs[1..])
  }

  function Min(a: int, b: int): int {
    if a < b then a else b
  }

  /** One card per project, all with the same image class. */
  function CardsFor(ps: seq<Project>, a: Aspect): (cs: seq<Card>)
    ensures |cs| == |ps|
  {
    if ps == [] then [] else [Card(ps[0], a)] + CardsFor(ps[1..], a)
  }

  /** Card `i` shows project `i`. */
  lemma {:induction false} CardsForElems(ps: seq<Project>, a: Aspect)
    ensures forall i :: 0 <= i < |ps| ==> CardsFor(ps, a)[i] == Card(ps[i], a)
  {
    if ps != [] {
      CardsForElems(ps[1..], a);
    }
  }

  /** The cards of one group from its (at most six) projects: the first
      row takes two with the given aspects, the second row three at 4/3,
      the third row one at 21/9; rows are cut short when projects run out. */
  function Layout(xs: seq<Project>, left: Aspect, right: Aspect): Group
    requires 1 <= |xs| <= 6
  {
    var m := |xs|;
    Group(
      [Card(xs[0], left)] + CardsFor(xs[1..Min(2, m)], right),
      CardsFor(xs[Min(2, m)..Min(5, m)], FourThree),
      CardsFor(xs[Min(5, m)..], TwentyOneNine))
  }

  /** Group `k` of the grid: projects `6k` to `6k + 5`. In odd groups the
      left card of the first row is the smaller one. */
  function GroupAt(ps: seq<Project>, k: nat): Group
    requires 6 * k < |ps|
  {
    var isLeftSmaller := k % 2 != 0;
    var left := if isLeftSmaller then TwoOne else FourThree;
    var right := if !isLeftSmaller then TwoOne else FourThree;
    Layout(ps[6 * k..Min(6 * k + 6, |ps|)], left, right)
  }

  /** A layout shows its projects in order, in rows of at most two, three
      and one, full when there are six. */
  lemma LayoutContents(xs: seq<Project>, left: Aspect, right: Aspect)
    requires 1 <= |xs| <= 6
    ensures ProjectsOf(CardsOf(Layout(xs, left, right))) == xs
    ensures var g := Layout(xs, left, right);
      && 1 <= |g.row1| <= 2 && |g.row2| <= 3 && |g.row3| <= 1
      && (|xs| == 6 ==> |g.row1| == 2 && |g.row2| == 3 && |g.row3| == 1)
  {
    var g := Layout(xs, left, right);
    var m := |xs|;
    var a, b := Min(2, m), Min(5, m);
    assert ProjectsOf(g.row1) == xs[..a] by {
      ProjectsOfCards(xs[1..a], right);
      ProjectsOfAppend([Card(xs[0], left)], CardsFor(xs[1..a], right));
      ConsPrefix(xs, a);
    }
    assert ProjectsOf(g.row2) == xs[a..b] by {
      ProjectsOfCards(xs[a..b], FourThree);
    }
    assert ProjectsOf(g.row3) == xs[b..] by {
      ProjectsOfCards(xs[b..], TwentyOneNine);
    }
    assert ProjectsOf(CardsOf(g)) == ProjectsOf(g.row1) + ProjectsOf(g.row2) + ProjectsOf(g.row3) by {
      ProjectsOfAppend(g.row1, g.row2);
      ProjectsOfAppend(g.row1 + g.row2, g.row3);
    }
    ThreePieces(xs, a, b);
  }

  /** The cards of a list of projects show those projects, in order. */
  lemma {:induction false} ProjectsOfCards(ps: seq<Project>, a: Aspect)
    ensures ProjectsOf(CardsFor(ps, a)) == ps
  {
    if ps != [] {
      ProjectsOfCards(ps[1..], a);
      assert CardsFor(ps, a)[1..] == CardsFor(ps[1..], a);
    }
  }

  /** Group `k` holds exactly projects `6k .. min(6k + 6, n)`, in order,
      in rows of at most two, three and one. */
  lemma GroupContents(ps: seq<Project>, k: nat)
    requires 6 * k < |ps|
    ensures ProjectsOf(CardsOf(GroupAt(ps, k))) == ps[6 * k..Min(6 * k + 6, |ps|)]
    ensures var g := GroupAt(ps, k);
      && 1 <= |g.row1| <= 2 && |g.row2| <= 3 && |g.row3| <= 1
      && (6 * k + 6 <= |ps| ==> |g.row1| == 2 && |g.row2| == 3 && |g.row3| == 1)
  {
    var left := if k % 2 != 0 then TwoOne else FourThree;
    var right := if k % 2 == 0 then TwoOne else FourThree;
    LayoutContents(ps[6 * k..Min(6 * k + 6, |ps|)], left, right);
  }

  /** The aspect classes: in even groups the first row is 4/3 then 2/1, in
      odd groups 2/1 then 4/3; the second row keeps the default 4/3 and the
      third row is always 21/9. */
  lemma GroupAspects(ps: seq<Project>, k: nat)
    requires 6 * k < |ps|
    ensures var g := GroupAt(ps, k);
      && g.row1[0].aspect == (if k % 2 == 0 then FourThree else TwoOne)
      && (|g.row1| == 2 ==> g.row1[1].aspect == (if k % 2 == 0 then TwoOne else FourThree))
      && (forall c :: c in g.row2 ==> c.aspect == FourThree)
      && (forall c :: c in g.row3 ==> c.aspect == TwentyOneNine)
  {
    var xs := ps[6 * k..Min(6 * k + 6, |ps|)];
    var m := |xs|;
    var right := if k % 2 == 0 then TwoOne else FourThree;
    CardsForElems(xs[1..Min(2, m)], right);
    CardsForElems(xs[Min(2, m)..Min(5, m)], FourThree);
    CardsForElems(xs[Min(5, m)..], TwentyOneNine);
  }

  /** The grid: `Math.ceil(n / 6)` groups, group `k` built from index
      `6k` on. */
  function Grid(ps: seq<Project>): (gs: seq<Group>)
    ensures |gs| == (|ps| + 5) / 6
    ensures forall k :: 0 <= k < |gs| ==> 6 * k < |ps| && gs[k] == GroupAt(ps, k)
  {
    seq((|ps| + 5) / 6, k requires 0 <= k < (|ps| + 5) / 6 => GroupAt(ps, k))
  }

  function Flatten(gs: seq<Group>): seq<Card> {
    if gs == [] then [] else CardsOf(gs[0]) + Flatten(gs[1..])
  }

  lemma {:induction false} ProjectsOfAppend(a: seq<Card>, b: seq<Card>)
    ensures ProjectsOf(a + b) == ProjectsOf(a) + ProjectsOf(b)
  {
    assert forall i :: 0 <= i < |a + b| ==> ProjectsOf(a + b)[i] == (ProjectsOf(a) + ProjectsOf(b))[i];
  }

  /** Projects `6k .. 6k + 5` of the list, as far as it goes. */
  function Chunk(ps: seq<Project>, k: nat): seq<Project> {
    ps[Min(6 * k, |ps|)..Min(6 * k + 6, |ps|)]
  }

  /** Groups that show consecutive chunks from chunk `k` to the end of the
      list show, together, every project from `6k` on, in order. */
  lemma {:induction false} FlattenChunks(gs: seq<Group>, ps: seq<Project>, k: nat)
    requires forall j :: 0 <= j < |gs| ==> ProjectsOf(CardsOf(gs[j])) == Chunk(ps, k + j)
    requires 6 * (k + |gs|) >= |ps|
    ensures ProjectsOf(Flatten(gs)) == ps[Min(6 * k, |ps|)..]
  {
    if gs != [] {
      forall j | 0 <= j < |gs| - 1
        ensures ProjectsOf(CardsOf(gs[1..][j])) == Chunk(ps, k + 1 + j)
      {
        assert gs[1..][j] == gs[j + 1];
      }
      FlattenChunks(gs[1..], ps, k + 1);
      ProjectsOfAppend(CardsOf(gs[0]), Flatten(gs[1..]));
      SliceSplit(ps, Min(6 * k, |ps|), Min(6 * k + 6, |ps|));
    }
  }

  /** Every filtered project is rendered exactly once, in list order. */
  lemma GridRendersAll(ps: seq<Project>)
    ensures ProjectsOf(Flatten(Grid(ps))) == ps
  {
    var gs := Grid(ps);
    forall j | 0 <= j < |gs|
      ensures ProjectsOf(CardsOf(gs[j])) == Chunk(ps, 0 + j)
    {
      GroupContents(ps, j);
    }
    assert 6 * |gs| >= |ps| by {
      assert |ps| + 5 == 6 * |gs| + (|ps| + 5) % 6;
    }
    FlattenChunks(gs, ps, 0);
  }

  // ------------------------------------------------------------ hover index

  /** `Math.min(Math.max(Math.floor(x / (width / len)), 0), len - 1)` for a
      card of positive width: on a positive divisor `/` is the floor, and
      `x / (width / len)` is `x * len / width`. */
  function HoverIndex(x: int, width: int, len: nat): (i: int)
    requires width > 0
    ensures len > 0 ==> 0 <= i < len
  {
    var raw := (x * len) / width;
    var lo := if raw > 0 then raw else 0;
    if lo < len - 1 then lo else len - 1
  }

  /** Inside the card, the index is the segment of width `width / len`
      that contains `x`. */
  lemma HoverSegment(x: int, width: int, len: nat)
    requires width > 0 && len > 0 && 0 <= x < width
    ensures var i := HoverIndex(x, width, len);
      i * width <= x * len < (i + 1) * width
  {
    var p := x * len;
    var raw := p / width;
    assert p == width * raw + p % width;
    MulNonNegative(x, len);
    MulStrict(x, width, len);
    if raw >= len {
      MulMonotone(len, raw, width);
      assert false;
    }
    assert raw * width == width * raw && (raw + 1) * width == width * raw + width;
  }

  /** Left of the card the index is clamped to the first image. */
  lemma HoverLeftOf(x: int, width: int, len: nat)
    requires width > 0 && len > 0 && x < 0
    ensures HoverIndex(x, width, len) == 0
  {
    var p := x * len;
    MulNegative(x, len);
    assert p == width * (p / width) + p % width;
    if p / width >= 0 {
      MulNonNegative(width, p / width);
      assert false;
    }
  }

  /** Right of the card the index is clamped to the last image. */
  lemma HoverRightOf(x: int, width: int, len: nat)
    requires width > 0 && len > 0 && x >= width
    ensures HoverIndex(x, width, len) == len - 1
  {
    var p := x * len;
    MulMonotone(width, x, len);
    assert p >= width * len;
    assert p == width * (p / width) + p % width;
    if p / width < len {
      MulMonotone(p / width + 1, len, width);
      assert false;
    }
  }

  lemma MulNonNegative(a: int, b: int)
    requires a >= 0 && b >= 0
    ensures a * b >= 0
  {
  }

  lemma MulNegative(a: int, b: int)
    requires a < 0 && b > 0
    ensures a * b < 0
  {
  }

  lemma MulStrict(x: int, width: int, len: int)
    requires 0 <= x < width && len > 0
    ensures x * len < width * len
  {
  }

  lemma MulMonotone(a: int, b: int, c: int)
    requires a <= b && c >= 0
    ensures a * c <= b * c
  {
  }

  /** The preview shows the image after the hovered one, wrapping round. */
  function PreviewIndex(i: int, len: nat): (j: nat)
    requires 0 <= i < len
    ensures j < len
    ensures j == if i == len - 1 then 0 else i + 1
  {
    (i + 1) % len
  }

  /** The card's link target, also the list view's. */
  function ProjectLink(p: Project): string {
    "/work/" + p.slug
  }

  /** A project card's hover state. */
  class ProjectCard {
    const project: Project
    const imageClass: Aspect
    var isHovered: bool
    var isImageHovered: bool
    var currentImageIndex: int
    var mouseX: int
    var mouseY: int

    /** The card has images and the index stays within them. */
    predicate Valid()
      reads this
    {
      |project.images| > 0 && 0 <= currentImageIndex < |project.images|
    }

    constructor (p: Project, aspect: Aspect)
      requires |p.images| > 0
      ensures project == p && imageClass == aspect
      ensures !isHovered && !isImageHovered && currentImageIndex == 0
      ensures mouseX == 0 && mouseY == 0
      ensures Valid()
    {
      project := p;
      imageClass := aspect;
      isHovered := false;
      isImageHovered := false;
      currentImageIndex := 0;
      mouseX := 0;
      mouseY := 0;
    }

    method MouseEnter()
      modifies this
      ensures isHovered
      ensures isImageHovered == old(isImageHovered) && currentImageIndex == old(currentImageIndex)
      ensures mouseX == old(mouseX) && mouseY == old(mouseY)
    {
      isHovered := true;
    }

    /** Leaving the card clears both hover flags and rewinds to image 0. */
    method MouseLeave()
      requires Valid()
      modifies this
      ensures !isHovered && !isImageHovered && currentImageIndex == 0
      ensures mouseX == old(mouseX) && mouseY == old(mouseY)
      ensures Valid()
    {
      isHovered := false;
      isImageHovered := false;
      currentImageIndex := 0;
    }

    method ImageEnter()
      modifies this
      ensures isImageHovered
      ensures isHovered == old(isHovered) && currentImageIndex == old(currentImageIndex)
      ensures mouseX == old(mouseX) && mouseY == old(mouseY)
    {
      isImageHovered := true;
    }

    method ImageLeave()
      modifies this
      ensures !isImageHovered
      ensures isHovered == old(isHovered) && currentImageIndex == old(currentImageIndex)
      ensures mouseX == old(mouseX) && mouseY == old(mouseY)
    {
      isImageHovered := false;
    }

    /** `handleMouseMove`, with the pointer given relative to the card's
        top-left corner and the card's width. */
    method MouseMove(x: int, y: int, width: int)
      requires Valid() && width > 0
      modifies this
      ensures mouseX == x && mouseY == y
      ensures currentImageIndex == HoverIndex(x, width, |project.images|)
      ensures isHovered == old(isHovered) && isImageHovered == old(isImageHovered)
      ensures Valid()
    {
      mouseX := x;
      mouseY := y;
      currentImageIndex := HoverIndex(x, width, |project.images|);
    }

    /** The floating preview: shown only while the image is hovered, with
        the image after the current one. */
    function Preview(): (src: Option<string>)
      requires Valid()
      reads this
      ensures src.Some? <==> isImageHovered
      ensures src.Some? ==> src.value in project.images
    {
      if isImageHovered then
        Some(project.images[PreviewIndex(currentImageIndex, |project.images|)])
      else None
    }
  }

  // ------------------------------------------------------------ page state

  datatype ViewMode = GridView | ListView

  class WorkPageState {
    const catalogue: seq<Project>
    const counts: map<string, nat>
    const keys: seq<string>
    var viewMode: ViewMode
    var isFiltersOpen: bool
    var isFilterHovered: bool
    var activeCategory: string
    /** The floating view toggle. */
    const toggle: ButtonElement

    predicate Valid()
      reads this
    {
      && keys == KeyOrder(catalogue)
      && counts.Keys == (set k | k in keys)
      && (forall k :: k in counts ==> counts[k] == CountEntry(catalogue, k))
      && activeCategory in counts
    }

    constructor (ps: seq<Project>)
      ensures catalogue == ps
      ensures viewMode == GridView && !isFiltersOpen && !isFilterHovered
      ensures activeCategory == AllWork
      ensures fresh(toggle)
      ensures Valid()
    {
      catalogue := ps;
      var c, k := CategoryCounts(ps);
      counts := c;
      keys := k;
      viewMode := GridView;
      isFiltersOpen := false;
      isFilterHovered := false;
      activeCategory := AllWork;
      toggle := new ButtonElement(true);
      assert AllWork in k;
    }

    /** The projects listed. */
    function Shown(): seq<Project>
      reads this
    {
      Filtered(catalogue, activeCategory)
    }

    /** The heading's zero-padded count. */
    function HeadingCount(): (s: string)
      requires Valid()
      reads this
      ensures |s| >= 2 && AllDigits(s) && ParseNat(s) == CountEntry(catalogue, activeCategory)
    {
      CountLabel(counts[activeCategory])
    }

    /** The filter button flips the panel. */
    method ToggleFilters()
      requires Valid()
      modifies this
      ensures isFiltersOpen == !old(isFiltersOpen)
      ensures activeCategory == old(activeCategory) && viewMode == old(viewMode)
      ensures isFilterHovered == old(isFilterHovered)
      ensures Valid()
    {
      isFiltersOpen := !isFiltersOpen;
    }

    method HoverFilters(hovered: bool)
      requires Valid()
      modifies this
      ensures isFilterHovered == hovered
      ensures isFiltersOpen == old(isFiltersOpen) && activeCategory == old(activeCategory)
      ensures viewMode == old(viewMode)
      ensures Valid()
    {
      isFilterHovered := hovered;
    }

    /** Choosing one of the listed categories makes it active and closes
        the panel. */
    method ChooseCategory(c: string)
      requires Valid() && c in keys
      modifies this
      ensures activeCategory == c && !isFiltersOpen
      ensures viewMode == old(viewMode) && isFilterHovered == old(isFilterHovered)
      ensures Valid()
    {
      activeCategory := c;
      isFiltersOpen := false;
    }

    /** A scroll closes the panel; the listener exists only while it is
        open, so a closed panel is unaffected. */
    method Scroll()
      requires Valid()
      modifies this
      ensures !isFiltersOpen
      ensures activeCategory == old(activeCategory) && viewMode == old(viewMode)
      ensures isFilterHovered == old(isFilterHovered)
      ensures Valid()
    {
      if isFiltersOpen {
        isFiltersOpen := false;
      }
    }

    method SetView(m: ViewMode)
      requires Valid()
      modifies this
      ensures viewMode == m
      ensures isFiltersOpen == old(isFiltersOpen) && activeCategory == old(activeCategory)
      ensures isFilterHovered == old(isFilterHovered)
      ensures Valid()
    {
      viewMode := m;
    }

    /** Scrolling back into the content pins the toggle to the viewport,
        1rem from the bottom on narrow screens and 2rem otherwise. */
    method ContentEnterBack(width: int)
      modifies toggle
      ensures toggle.position == Fixed && toggle.bottomRem == Some(ByWidth(width, 1, 2))
      ensures toggle.shown == old(toggle.shown)
    {
      toggle.Place(Fixed, ByWidth(width, 1, 2));
    }

    /** Scrolling past the content docks the toggle at the page's end,
        1rem from the bottom on narrow screens and 4rem otherwise. */
    method ContentLeave(width: int)
      modifies toggle
      ensures toggle.position == Absolute && toggle.bottomRem == Some(ByWidth(width, 1, 4))
      ensures toggle.shown == old(toggle.shown)
    {
      toggle.Place(Absolute, ByWidth(width, 1, 4));
    }
  }
}
