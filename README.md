# Maison More site logic, in Dafny

This project models the logic that sits under the markup of the Maison More
architecture-studio site. The site is a React single-page application; the
logic that is modelled is:

- **Project catalogue** (`src/data/projects.ts`). A literal table of 18 rows
  is mapped into project records. Each record gets:
  - a sequential id;
  - a slug: the explicit override, or else the title lower-cased with each
    whitespace run turned into `-`;
  - a status derived from the year;
  - asset paths built from the slug;
  - texts taken by index from three parallel arrays.

  Module `Projects`; the string helpers it uses are in `Text`.
- **Work listing** (`src/pages/WorkPage.tsx`), module `WorkPage`:
  - the per-category counts with their `All Work` total, built by a loop;
  - the category filter;
  - the repeating 2-3-1 grid and its alternating aspect classes;
  - a card's hover image index and its preview image;
  - the page's filter-panel, view-mode and docking state, as classes.
- **Project route** (`src/pages/ProjectPage.tsx`), module `ProjectPage`:
  - the slug lookup, with a redirect to `/work` on a miss;
  - the cyclic next project;
  - the floating back link's docking.
- **Floating indicators**:
  - the home page's "Discover" button (`FloatingButton`): label and target
    updates, click dispatch, scroll zones, show/hide and docking;
  - the studio page's city button (`StudioFloatingButton`);
  - the contact page's city headline (`ContactPage`).

  The city carousels share the class `Cycle.Carousel`. The buttons' inline
  style is `Docking.ButtonElement`.
- **Header** (`src/components/layout/Header.tsx`), module `Header`: the route
  flags, the scroll-visibility rule, the hero-done flag and the mobile menu.
- **Small helpers**:
  - the process page's two-column text split and sticky offsets
    (`ProcessPage`);
  - the animation settings chosen from the device (`Performance`);
  - the `srcset` and `<picture>` string builders (`ImageOptimization`).

Component state updated by event handlers is modelled as classes whose
methods are the handlers. Scroll-zone crossings (`onEnter`, `onLeave`,
`onEnterBack`, `onLeaveBack`), timer ticks, clicks and location changes are
method calls. Values the handlers read from the browser are parameters:
the viewport width and height, the scroll position, the pointer position
and the card's width, `navigator`, and the media query.

## Model

| member | source | states |
|---|---|---|
| `Text.Lower` | src/data/projects.ts:138 | `toLowerCase` keeps the length and maps each character on its own: capitals move down by 32, every other character is kept |
| `Text.LowerAppend` | src/data/projects.ts:138 | lower-casing a concatenation lower-cases each part |
| `Text.TrimSurrounded` | src/lib/imageOptimization.ts:24-29 | `trim` of text wrapped in whitespace removes the wrapping and the text's own leading whitespace, nothing more; text that starts with a non-space comes back whole |
| `Text.ParseNatToString` | src/pages/WorkPage.tsx:176 | reading back the decimal rendering of a count gives the count |
| `Text.ParseNatLeadingZeros` | src/pages/WorkPage.tsx:176 | zeros padded on the left keep the digits all digits and do not change the value |
| `Text.ParseIntPrefix` | src/data/projects.ts:152 | `parseInt` is NaN exactly when the text does not start with a digit, and is the text's value when it is all digits |
| `Projects.DashRuns` | src/data/projects.ts:138 | `replace(/\s+/g, '-')` leaves no whitespace and adds no capital |
| `Projects.Slugify` | src/data/projects.ts:138 | a derived slug has no whitespace and no capital letter |
| `Projects.DashRunsIdentity` | src/data/projects.ts:138 | text without whitespace passes the replacement unchanged |
| `Projects.DashRunsCollapse` | src/data/projects.ts:138 | one whitespace run, however long, becomes exactly one `-` |
| `Projects.SlugifyIdempotent` | src/data/projects.ts:138 | deriving a slug from a slug changes nothing |
| `Projects.SlugifyWords` | src/data/projects.ts:138 | a title of words separated by single spaces gives its lower-cased words joined by `-` |
| `Projects.SlugifySingleSpaced` | src/data/projects.ts:138 | in a title with no two adjacent whitespace characters, character `i` of the slug is the lower-cased character `i` of the title, or `-` for whitespace |
| `Projects.ExplicitSlug` | src/data/projects.ts:138 | a non-empty explicit slug is used as it is |
| `Projects.ParallelArraysFit` | src/data/projects.ts:1-136 | the table has 18 rows, and the description, quote and about arrays have exactly one entry per row |
| `Projects.RecordIdentity` | src/data/projects.ts:137-144 | record `i` has id `i + 1`, its row's title, category and year, and its row's slug, either the override or the one derived from the title |
| `Projects.RecordAssets` | src/data/projects.ts:145-163 | a record has exactly the three images `/assets/<slug>/hero.jpg`, `1.jpg` and `2.jpg`, in that order; the hero image is image 0; `image2` is `/assets/<slug>/detail.jpg` |
| `Projects.RecordDerived` | src/data/projects.ts:150-152 | typology equals category; client is the title followed by ` Client`; status is the one the year decides |
| `Projects.RecordTexts` | src/data/projects.ts:154-164 | record `i` takes its description, quote and both about texts from index `i` of the three arrays |
| `Projects.StatusByYear` | src/data/projects.ts:152 | for a year written in digits, the status is `Under Construction` exactly when the year is at least 2024, and `Completed` exactly when it is below |
| `Projects.TableCategories` | src/data/projects.ts:118-136 | every row has one of the five categories Commercial, Residential, Multi-residential, Public and Retail |
| `Projects.TitlesDistinct` | src/data/projects.ts:118-136 | no two rows share a title |
| `Projects.SlugsDistinct` | src/data/projects.ts:118-138 | the 18 slugs of the catalogue are pairwise distinct |
| `WorkPage.CountOf` | src/pages/WorkPage.tsx:110-112 | a category's count is at most the number of projects, and is zero exactly when no project has that category |
| `WorkPage.KeyOrder` | src/pages/WorkPage.tsx:108-113 | the dictionary's keys, in insertion order, start with `All Work` |
| `WorkPage.CategoryCounts` | src/pages/WorkPage.tsx:108-114 | the loop builds a dictionary whose keys are the insertion order of `All Work` and the categories, whose `All Work` entry is the total, and whose other entries are each category's number of projects |
| `WorkPage.KeyOrderContents` | src/pages/WorkPage.tsx:108-113 | the keys are `All Work` and exactly the categories present, each listed once |
| `WorkPage.AllWorkTotal` | src/pages/WorkPage.tsx:109 | when no category is literally `All Work`, the `All Work` entry is the number of projects |
| `WorkPage.CatalogueAllWork` | src/pages/WorkPage.tsx:108-114 | on the catalogue, no category is `All Work`, and the `All Work` count is 18 |
| `WorkPage.FilterCategory` | src/pages/WorkPage.tsx:119 | the filter keeps as many projects as the category's count, and only projects of the catalogue with that category |
| `WorkPage.FilterAppend` | src/pages/WorkPage.tsx:119 | the filter keeps order: filtering a concatenation filters each part |
| `WorkPage.FilterSingle` | src/pages/WorkPage.tsx:119 | a single project is kept exactly when its category matches |
| `WorkPage.FilterAll` | src/pages/WorkPage.tsx:119 | when every project has the category, the filter returns the list unchanged |
| `WorkPage.Filtered` | src/pages/WorkPage.tsx:117-120 | `All Work` shows the catalogue unchanged; any other category shows its count of projects, all of that category |
| `WorkPage.FilteredMatchesCount` | src/pages/WorkPage.tsx:108-120 | the list shown is as long as the heading's count for the active category |
| `WorkPage.CountLabel` | src/pages/WorkPage.tsx:176 | the zero-padded count has at least two characters, all digits, and reads back as the count; below 10 it is `0` and the digit |
| `WorkPage.LayoutContents` | src/pages/WorkPage.tsx:236-271 | a group shows its projects in order, in rows of at most two, three and one cards, full when it has six |
| `WorkPage.GroupContents` | src/pages/WorkPage.tsx:231-271 | group `k` shows exactly projects `6k` up to `min(6k + 6, n)`, in order, in rows of at most two, three and one |
| `WorkPage.GroupAspects` | src/pages/WorkPage.tsx:233-269 | even groups have a first row of 4/3 then 2/1, odd groups 2/1 then 4/3; the second row is 4/3 and the third row 21/9 |
| `WorkPage.Grid` | src/pages/WorkPage.tsx:231-232 | the grid has `ceil(n / 6)` groups, group `k` starting at index `6k` |
| `WorkPage.FlattenChunks` | src/pages/WorkPage.tsx:231-271 | groups that show consecutive six-project chunks show, together, every project from the first chunk's start on, in order |
| `WorkPage.GridRendersAll` | src/pages/WorkPage.tsx:229-275 | the grid renders every filtered project exactly once, in list order |
| `WorkPage.HoverIndex` | src/pages/WorkPage.tsx:25-30 | the hover index is in `[0, len - 1]` |
| `WorkPage.HoverSegment` | src/pages/WorkPage.tsx:25-30 | inside the card, the index is the segment of width `width / len` that contains the pointer |
| `WorkPage.HoverLeftOf` | src/pages/WorkPage.tsx:27-30 | left of the card the index is clamped to 0 |
| `WorkPage.HoverRightOf` | src/pages/WorkPage.tsx:27-30 | right of the card the index is clamped to the last image |
| `WorkPage.PreviewIndex` | src/pages/WorkPage.tsx:73 | the preview is the next image, and the first one after the last |
| `WorkPage.ProjectCard.constructor` | src/pages/WorkPage.tsx:10-14 | a card starts unhovered, at image 0, with the pointer at the origin |
| `WorkPage.ProjectCard.MouseEnter` | src/pages/WorkPage.tsx:39 | entering the card sets the hover flag and nothing else |
| `WorkPage.ProjectCard.MouseLeave` | src/pages/WorkPage.tsx:40-44 | leaving the card clears both hover flags and resets the index to 0 |
| `WorkPage.ProjectCard.ImageEnter` | src/pages/WorkPage.tsx:50 | entering the image sets the image-hover flag and nothing else |
| `WorkPage.ProjectCard.ImageLeave` | src/pages/WorkPage.tsx:51 | leaving the image clears the image-hover flag and nothing else |
| `WorkPage.ProjectCard.MouseMove` | src/pages/WorkPage.tsx:17-33 | a move records the pointer and sets the index to the clamped hover index, which stays in range |
| `WorkPage.ProjectCard.Preview` | src/pages/WorkPage.tsx:63-73 | a preview is shown exactly while the image is hovered, and it is one of the project's images |
| `WorkPage.WorkPageState.constructor` | src/pages/WorkPage.tsx:100-114 | the page starts in grid view on `All Work` with the panel closed, and the counts are computed |
| `WorkPage.WorkPageState.HeadingCount` | src/pages/WorkPage.tsx:176 | the heading shows the active category's count, zero-padded to two digits |
| `WorkPage.WorkPageState.ToggleFilters` | src/pages/WorkPage.tsx:183 | the filter button flips the panel and changes nothing else |
| `WorkPage.WorkPageState.HoverFilters` | src/pages/WorkPage.tsx:181-182 | hovering the filter button sets only the hover flag |
| `WorkPage.WorkPageState.ChooseCategory` | src/pages/WorkPage.tsx:212-218 | choosing a listed category makes it active and closes the panel |
| `WorkPage.WorkPageState.Scroll` | src/pages/WorkPage.tsx:157-169 | a scroll closes the panel and changes nothing else |
| `WorkPage.WorkPageState.SetView` | src/pages/WorkPage.tsx:292-301 | the view buttons set the view mode and nothing else |
| `WorkPage.WorkPageState.ContentEnterBack` | src/pages/WorkPage.tsx:132-137 | re-entering the content pins the toggle (`fixed`), 1rem up below 768px and 2rem otherwise |
| `WorkPage.WorkPageState.ContentLeave` | src/pages/WorkPage.tsx:138-143 | leaving the content docks the toggle (`absolute`), 1rem up below 768px and 4rem otherwise |
| `ProjectPage.FindIndex` | src/pages/ProjectPage.tsx:14 | the index of the first project with the route's slug, or -1 exactly when none has it |
| `ProjectPage.FindOwnSlug` | src/pages/ProjectPage.tsx:14-15 | with distinct slugs, looking up a project's own slug finds that project |
| `ProjectPage.Resolve` | src/pages/ProjectPage.tsx:14-21 | an unknown slug redirects to `/work`; a known one renders that project with the one at `(i + 1) mod n` next |
| `ProjectPage.NextLink` | src/pages/ProjectPage.tsx:147 | the next-project link is `/work/` followed by the next project's slug |
| `ProjectPage.CatalogueRoutes` | src/pages/ProjectPage.tsx:14-21 | every catalogue project's page renders it, and the last project's next project is the first |
| `ProjectPage.FollowNext` | src/pages/ProjectPage.tsx:147 | following a page's next link renders the project after it, cyclically |
| `ProjectPage.BackLink.constructor` | src/pages/ProjectPage.tsx:159-161 | the back link targets `/work` |
| `ProjectPage.BackLink.ContentEnterBack` | src/pages/ProjectPage.tsx:32-37 | re-entering the content pins the link (`fixed`) 2rem up |
| `ProjectPage.BackLink.ContentLeave` | src/pages/ProjectPage.tsx:38-43 | leaving the content docks the link (`absolute`) 2rem up |
| `Cycle.Next` | src/pages/ProjectPage.tsx:21 | `(i + 1) mod n` is the following index, and the first after the last |
| `Cycle.NextOfMod` | src/pages/ContactPage.tsx:12 | one more step from `t mod n` lands on `(t + 1) mod n` |
| `Cycle.Carousel.constructor` | src/pages/ContactPage.tsx:8 | a carousel starts at index 0 |
| `Cycle.Carousel.Tick` | src/pages/ContactPage.tsx:10-15 | each tick moves to the next index, so the index is always the tick count modulo the length and in range |
| `Cycle.Carousel.Current` | src/pages/ContactPage.tsx:34 | the name shown is one of the list, the one at the tick count modulo the length |
| `Docking.ByWidth` | src/components/ui/StudioFloatingButton.tsx:50 | below 768px the small offset is chosen, otherwise the large one |
| `Docking.ButtonElement.constructor` | src/components/ui/FloatingButton.tsx:146 | no inline position or bottom offset is set at first |
| `Docking.ButtonElement.Place` | src/components/ui/FloatingButton.tsx:80-90 | a handler sets position and bottom together, and visibility is kept |
| `Docking.ButtonElement.Show` | src/components/ui/FloatingButton.tsx:30 | animating in shows the button and keeps its position |
| `Docking.ButtonElement.Hide` | src/components/ui/FloatingButton.tsx:34 | animating out hides the button and keeps its position |
| `FloatingButton.FindByTitle` | src/components/ui/FloatingButton.tsx:44 | `find` by title returns a catalogue project with that title, and returns nothing exactly when no project has it |
| `FloatingButton.FindByTitleAt` | src/components/ui/FloatingButton.tsx:44 | a project preceded by no project of the same title is the one found by its title |
| `FloatingButton.ZoneProjects` | src/components/ui/FloatingButton.tsx:42-54 | there is at most one project zone per selected title |
| `FloatingButton.ZoneProjectsMembers` | src/components/ui/FloatingButton.tsx:42-54 | a project has a zone exactly when it is what the lookup of one of the titles finds |
| `FloatingButton.CatalogueFindByTitle` | src/components/ui/FloatingButton.tsx:44 | in the catalogue, the lookup by a project's title finds that project |
| `FloatingButton.ZonesAllFound` | src/components/ui/FloatingButton.tsx:42-54 | when all three titles are found, there are three zones in the titles' order |
| `FloatingButton.SelectedRows` | src/components/ui/FloatingButton.tsx:42 | the selected titles are those of table rows 5, 2 and 3 |
| `FloatingButton.CatalogueZones` | src/components/ui/FloatingButton.tsx:42-54 | on the catalogue the zones are Loller, Penthouse Vivace and Southbank Tower, in that order |
| `FloatingButton.Click` | src/components/ui/FloatingButton.tsx:116-141 | `Studio`, `Vision` and `All Work` go to `/studio`, `/process` and `/work`; a project title goes to `/work/<slug>`; otherwise an id containing `-section` that is on the page is scrolled into view, and nothing else happens |
| `FloatingButton.TitlesAreNotLabels` | src/components/ui/FloatingButton.tsx:119-130 | no catalogue title is one of the three fixed labels |
| `FloatingButton.ClickOpensProject` | src/components/ui/FloatingButton.tsx:130-133 | clicking while a catalogue title is shown opens a `/work/` path whose page renders that project |
| `FloatingButton.ClickScrollsToSection` | src/components/ui/FloatingButton.tsx:134-139 | a label that is no title, with an id that contains `-section`, scrolls to that id when it is on the page, and does nothing otherwise |
| `FloatingButton.ZoneTarget` | src/components/ui/FloatingButton.tsx:25-72 | the about zone sets `Studio`/`about-section`, a project zone its title and slug, the all-work zone `All Work`/`all-work-section`, the vision zone `Vision`/`vision-section`, and the method zone no label |
| `FloatingButton.Button.constructor` | src/components/ui/FloatingButton.tsx:13-15 | the button starts hidden, showing `Studio` and targeting `about-section` |
| `FloatingButton.Button.UpdateText` | src/components/ui/FloatingButton.tsx:102-114 | requesting the label already requested changes nothing; any other label sets the label and target at once and queues a roll that will show it |
| `FloatingButton.Button.CompleteRoll` | src/components/ui/FloatingButton.tsx:109-113 | the oldest roll reaches its text swap and shows its label |
| `FloatingButton.Button.Enter` | src/components/ui/FloatingButton.tsx:25-71 | entering a zone with a new label sets the label and target and queues a roll to it, while the text on screen stays until the roll swaps it; the about zone also shows the button |
| `FloatingButton.Button.EnterBack` | src/components/ui/FloatingButton.tsx:36-84 | re-entering a text zone requests its label again (a new label queues a roll, and the text on screen stays until it swaps); re-entering the method zone pins the button (`fixed`) 2rem up |
| `FloatingButton.Button.Leave` | src/components/ui/FloatingButton.tsx:85-91 | leaving the method zone docks the button (`absolute`) 2rem up; other zones do nothing |
| `FloatingButton.Button.LeaveBack` | src/components/ui/FloatingButton.tsx:33-35 | leaving the about zone backwards hides the button; other zones do nothing |
| `FloatingButton.Button.OnClick` | src/components/ui/FloatingButton.tsx:116-119 | once the rolls have finished, a click dispatches on the label most recently requested |
| `Header.RouteOf` | src/components/layout/Header.tsx:34-38 | any path starting with `/work` is the work page; the other pages match exactly |
| `Header.RouteExclusive` | src/components/layout/Header.tsx:34-38 | a path names at most one page |
| `Header.Decide` | src/components/layout/Header.tsx:53-69 | the inner pages, and the home page after its intro, always show the header; otherwise it is shown exactly when `scrollY > 0.95 * innerHeight` |
| `Header.DecideMonotone` | src/components/layout/Header.tsx:62 | scrolling further down never hides a header that is shown |
| `Header.HomeThreshold` | src/components/layout/Header.tsx:56-62 | on the home page before the intro ends, the header is hidden at the top and shown after one viewport |
| `Header.MenuLabel` | src/components/layout/Header.tsx:102 | the menu button reads `Close` exactly when the menu is open, and `Menu` exactly when it is closed |
| `Header.HeaderState.constructor` | src/components/layout/Header.tsx:6-9 | all flags start false, then the first run of the handler sets the visibility |
| `Header.HeaderState.HandleScroll` | src/components/layout/Header.tsx:53-69 | with the menu open nothing changes; otherwise header and logo both take the decided visibility |
| `Header.HeaderState.Scroll` | src/components/layout/Header.tsx:71-73 | a scroll event keeps header and logo equal and as decided, unless the menu is open |
| `Header.HeaderState.HeroDone` | src/components/layout/Header.tsx:40-44 | the `heroDone` event raises the flag |
| `Header.HeaderState.ToggleMenu` | src/components/layout/Header.tsx:99 | the menu button flips the menu; opening it leaves the visibility as it was |
| `Header.HeaderState.Navigate` | src/components/layout/Header.tsx:13-50 | a location change closes the menu, leaving the home page clears the hero-done flag, and the visibility is the one decided for the new path |
| `StudioFloatingButton.StudioButton.constructor` | src/components/ui/StudioFloatingButton.tsx:8-13 | the button starts hidden, on `Belarus`, linking to `/contact` |
| `StudioFloatingButton.StudioButton.Tick` | src/components/ui/StudioFloatingButton.tsx:15-25 | each tick moves to the next of the 8 cities, wrapping after the last |
| `StudioFloatingButton.StudioButton.City` | src/components/ui/StudioFloatingButton.tsx:89 | the city shown is `cities[currentCityIndex]` |
| `StudioFloatingButton.StudioButton.QuoteEnter` | src/components/ui/StudioFloatingButton.tsx:34-36 | entering the quote section shows the button |
| `StudioFloatingButton.StudioButton.QuoteLeaveBack` | src/components/ui/StudioFloatingButton.tsx:37-39 | leaving it backwards hides the button |
| `StudioFloatingButton.StudioButton.JobsEnterBack` | src/components/ui/StudioFloatingButton.tsx:47-52 | re-entering the jobs section pins the button (`fixed`), 1rem up below 768px and 2rem otherwise |
| `StudioFloatingButton.StudioButton.JobsLeave` | src/components/ui/StudioFloatingButton.tsx:53-58 | leaving the jobs section docks the button (`absolute`), 2rem up below 768px and 4rem otherwise |
| `ContactPage.ContactHeadline.constructor` | src/pages/ContactPage.tsx:5-8 | the headline starts on `Victoria` |
| `ContactPage.ContactHeadline.Tick` | src/pages/ContactPage.tsx:10-15 | each tick moves to the next city, and `Canberra` is followed by `Victoria` |
| `ContactPage.ContactHeadline.City` | src/pages/ContactPage.tsx:34 | the city shown is `cities[cityIndex]` |
| `ProcessPage.HalfUp` | src/pages/ProcessPage.tsx:162 | `ceil(n / 2)` is the half of `n` rounded up |
| `ProcessPage.Columns` | src/pages/ProcessPage.tsx:162-167 | the left column has the first `ceil(n / 2)` texts, the right the other `floor(n / 2)`, and together they are the texts in order |
| `ProcessPage.ColumnsBalanced` | src/pages/ProcessPage.tsx:162-167 | the left column is never shorter than the right, and at most one text longer |
| `ProcessPage.SingleTextLeft` | src/pages/ProcessPage.tsx:162-167 | a single text goes to the left column, and the right column is empty |
| `ProcessPage.StickyTopVh` | src/pages/ProcessPage.tsx:154 | card `index` sticks at `10 + 5 * index` vh: at least 10vh, in steps of 5vh |
| `ProcessPage.StickyTopIncreasing` | src/pages/ProcessPage.tsx:154 | a later card sticks strictly lower |
| `ProcessPage.Cards` | src/pages/ProcessPage.tsx:150-177 | one card per initiative, with its index's sticky top, its title, and its texts split over the two columns |
| `ProcessPage.PageCards` | src/pages/ProcessPage.tsx:8-48 | the page has four cards with 5, 2, 3 and 1 texts; the last has an empty right column and sticks at 25vh |
| `Performance.IsLowEnd` | src/hooks/usePerformance.ts:35-53 | a device is low-end exactly when `navigator` exists and it reports non-zero memory below 4 GB or a `2g`/`3g` connection |
| `Performance.ZeroMemoryIgnored` | src/hooks/usePerformance.ts:40-41 | a reported memory of 0 does not count, so only the connection decides |
| `Performance.FastDevice` | src/hooks/usePerformance.ts:40-49 | at least 4 GB (or none reported) on any other connection type is not low-end |
| `Performance.Config` | src/hooks/usePerformance.ts:58-67 | animation runs exactly without reduced motion on a device that is not low-end; low-end devices get 300ms and no stagger, others 800ms and 15ms |
| `Performance.ConfigConsistent` | src/hooks/usePerformance.ts:62-66 | when animations run they use the full timings, and a low-end device never animates and gets a shorter duration |
| `Performance.ReducedMotion.constructor` | src/hooks/usePerformance.ts:6-27 | the flag starts as the media query's answer (false without a window), and a listener is registered only where `addEventListener` exists |
| `Performance.ReducedMotion.Change` | src/hooks/usePerformance.ts:16-18 | with a listener, the flag becomes the latest event's `matches` |
| `ImageOptimization.EntryParts` | src/lib/imageOptimization.ts:25-28 | an entry is `<base>-<w>.<format> <w>w`: its file name carries the width, and its descriptor is the width's digits then `w` |
| `ImageOptimization.EntryShape` | src/lib/imageOptimization.ts:25-28 | the same layout of an entry for any text in place of the width |
| `ImageOptimization.Entries` | src/lib/imageOptimization.ts:17-28 | exactly four entries, one per width, in the order 640, 1024, 1920, 2560 |
| `ImageOptimization.WidthsIncrease` | src/lib/imageOptimization.ts:17-22 | the widths increase from entry to entry |
| `ImageOptimization.WidthDigits` | src/lib/imageOptimization.ts:17-28 | the widths appear in the text as `640`, `1024`, `1920` and `2560` |
| `ImageOptimization.GenerateSrcSet` | src/lib/imageOptimization.ts:16-34 | the `srcset` is the four entries joined by a comma and a new line; the format defaults to `jpg`; `sizes` is the fixed constant |
| `ImageOptimization.SrcSetJoined` | src/lib/imageOptimization.ts:24-29 | trimming the template leaves the joined entries, less any leading whitespace of the base path |
| `ImageOptimization.TemplateTrim` | src/lib/imageOptimization.ts:24-29 | four texts laid out one per line between whitespace trim to their join |
| `ImageOptimization.SrcSetExact` | src/lib/imageOptimization.ts:24-29 | for a base path that does not start with whitespace, the `srcset` is exactly the joined entries |
| `ImageOptimization.DefaultIsJpg` | src/lib/imageOptimization.ts:16 | leaving the format out is the same as asking for `jpg` |
| `ImageOptimization.GetOptimizedImageUrl` | src/lib/imageOptimization.ts:39-42 | the URL is the path, unchanged |
| `ImageOptimization.PictureSources` | src/lib/imageOptimization.ts:58-69 | the markup's source is `<base>.webp` and its fallback `<base>.jpg`, followed by the alt text and the class |
| `ImageOptimization.PictureDefaultClass` | src/lib/imageOptimization.ts:66 | without a class name the class attribute is empty |

## Left out

- Animation: GSAP timelines and tweens, ScrollTrigger geometry, Lenis and framer-motion transitions are left out. Only the state each handler leaves behind is modelled: flags, labels, indices, inline `position`/`bottom`, shown or hidden.
- Floating point: the pointer, the card width, `scrollY` and the viewport height are integers. The header threshold `scrollY > innerHeight * 0.95` is stated as `100 * scrollY > 95 * innerHeight`. Durations are integer milliseconds (0.3s and 0.8s become 300 and 800, the 0.015s stagger becomes 15). Device memory is a `real`.
- `Text.Lower`: models `toLowerCase` for ASCII capitals only. `Text.IsSpace` covers the ASCII members of `\s` only. All the catalogue's titles are ASCII.
- `Text.ParseIntPrefix`: models `parseInt` for texts that start with their digits. A sign, leading whitespace and radix prefixes are not modelled; the catalogue's years are four digits.
- `WorkPage.KeyOrder`: `Object.entries` is taken to list keys in insertion order. JavaScript does this for keys that are not integer-like, which holds for every category name.
- `WorkPage.HoverIndex`: requires a positive card width. In the source a zero-width card divides by zero: a pointer right of the left edge gives `+Infinity` and the last image, one left of it gives `-Infinity` and image 0, and a pointer exactly on the edge gives `NaN`.
- `WorkPage.CardsFor`: states only the number of cards. The card-by-card fact is `WorkPage.CardsForElems`, kept apart to keep proofs small.
- `FloatingButton.ZoneProjects`: its own contract only bounds the number of zones. Membership is `FloatingButton.ZoneProjectsMembers`, and order on the catalogue is `FloatingButton.CatalogueZones`.
- The hero and logo `ref`s and `document.getElementById` are abstracted. A null `buttonRef.current` is not modelled: every docking handler writes the style. The elements present on the page are a parameter of `FloatingButton.Click`.
- `FloatingButton.Button`: `currentId` has the type `string | number` in the source but only ever holds strings, so it is a `string`. The condition `typeof currentId === 'string'` then always holds.
- `FloatingButton.Button.CompleteRoll`: text rolls are taken to swap their text in the order they started. Their 0.2s timings are not modelled.
- `Performance.ReducedMotion`: removing the listener on unmount is not modelled.
- Timers and refreshes are left out: the `ScrollTrigger.refresh` timeouts and `window.scrollTo`.
- Header: the clock text (`toLocaleTimeString` in Melbourne time), the header's colour classes and the mobile menu's contents are left out.
- `preloadImage` appends a DOM node and is left out.
- The static content of the pages is not part of this model. This covers the markup, the process page's other sections and the project page's text layout.
- `ImageOptimization.SrcSetJoined`: JavaScript's `trim` also removes any whitespace the base path itself starts with. The model states this; `ImageOptimization.SrcSetExact` gives the exact text for the usual base path.
