/**
 * The project catalogue (`projectsData`): a literal table of rows mapped,
 * row by row, into project records. Each record takes a sequential id, a
 * slug (an explicit override or one derived from the title), a status
 * derived from the year, asset paths built from the slug, and three texts
 * looked up by index in parallel arrays.
 */
module Projects {
  import opened Text

  datatype Row = Row(title: string, category: string, year: string, slug: Option<string>)

  datatype About = About(p1: string, p2: string)

  datatype Details = Details(
    description: string,
    country: string,
    location: string,
    construction: string,
    discipline: string)

  datatype Project = Project(
    id: nat,
    slug: string,
    title: string,
    category: string,
    year: string,
    images: seq<string>,
    client: string,
    typology: string,
    status: string,
    heroImage: string,
    details: Details,
    quote: string,
    about1: string,
    image2: string,
    about2: string)

  const Descriptions: seq<string> := [
    "Located in the heart of the city, this project has been designed to reflect our client’s character while being sensitive to the evolving local context.",
    "A thoughtful exploration of space and light, creating a sanctuary that balances privacy with connection to the surrounding landscape.",
    "This ambitious development redefines urban living, offering panoramic views and meticulously crafted interiors for modern lifestyles.",
    "A harmonious blend of heritage preservation and contemporary design, breathing new life into a historic structure.",
    "Designed with sustainability at its core, this residence utilizes passive cooling and locally sourced materials to minimize its footprint.",
    "An innovative commercial space that fosters collaboration and creativity, featuring flexible layouts and abundant natural light.",
    "A striking architectural statement that challenges conventional forms, creating a dynamic interplay between solid and void.",
    "This multi-residential project prioritizes community and shared spaces, encouraging interaction while maintaining individual privacy.",
    "A civic landmark designed to serve and inspire the community, featuring accessible facilities and an inviting public plaza.",
    "An elegant residential design that maximizes a compact site, delivering spacious and light-filled living areas.",
    "A sophisticated loft conversion that celebrates its industrial past while introducing refined, modern finishes.",
    "A sculptural pavilion that acts as a focal point for the park, providing shelter and a venue for public events.",
    "Nestled within a wooded landscape, this home is designed to frame nature, blurring the boundaries between indoors and out.",
    "A state-of-the-art office environment tailored for a forward-thinking company, emphasizing employee well-being and productivity.",
    "A boutique apartment building that offers a refined coastal lifestyle, with expansive terraces and ocean views.",
    "A premium retail and wellness space designed to elevate the customer experience through tactile materials and atmospheric lighting.",
    "A modern library facility that serves as a hub for learning and connection, featuring adaptable spaces for diverse community needs.",
    "A comprehensive commercial redevelopment that revitalizes the streetscape and provides premium amenities for tenants."
  ]

  const Quotes: seq<string> := [
    "”The location required a complementary response to the heritage and grandeur of the street.”",
    "”A residence that acts as a quiet observer of its natural surroundings.”",
    "”Elevating the standard of luxury living through cinematic views and refined materiality.”",
    "”Architecture that bridges the gap between historical narrative and modern ambition.”",
    "”Sustainability is not an addition; it is the foundation of the design.”",
    "”Creating an environment where work feels inspired by openness and light.”",
    "”A bold geometric expression that provides a unique identity to the neighbourhood.”",
    "”Focusing on the human experience within a high-density urban context.”",
    "”Public spaces should be destinations that invite pause and reflection.”",
    "”Maximising every millimetre to create a sense of boundless space.”",
    "”Respecting the industrial bones while layering a new, sophisticated domesticity.”",
    "”A delicate intervention in the landscape that celebrates light and shadow.”",
    "”The house is not on the land, but of the land.”",
    "”Designing for productivity means designing for the people who inhabit the space.”",
    "”Coastal living refined through a palette of sand, stone, and sea.”",
    "”Retail as an immersive journey of texture and atmosphere.”",
    "”A repository of knowledge that feels as open as the community it serves.”",
    "”Revitalising the commercial heart with a renewed sense of urban vibrance.”"
  ]

  const Abouts: seq<About> := [
    About(
      "Ground floor activation is a crucial element to the project, where the frontage has greater hierarchy with the entry designed to sit more discreetly within the street interface.",
      "Exploring design opportunities lead to a refined architectural expression that combines strong vertical emphasis, masonry framing and an exploration of tactile materials."),
    About(
      "The design response was driven by a desire to create a sequence of experiences that gradually reveal the landscape as one moves through the house.",
      "A restrained palette of off-form concrete and natural timber provides a neutral backdrop to the shifting patterns of light and shadow throughout the day."),
    About(
      "Vivace represents a pinnacle of luxury, where every detail from the custom joinery to the stone selection has been curated for the discerning eye.",
      "The layout prioritises ease of movement and visual connection to the city skyline, creating an interior that feels both grand and intimate."),
    About(
      "Situated within a significant heritage precinct, the project balances the preservation of the original facade with a contemporary glass addition.",
      "The dialogue between the old and the new is celebrated through a central atrium that brings light deep into the floor plates."),
    About(
      "By utilizing passive solar principles, the house maintains a comfortable temperature all year round without heavy reliance on mechanical systems.",
      "The material choice was local and low-impact, resulting in a building that is as gentle on the environment as it is beautiful to live in."),
    About(
      "The office is designed around a central hub that encourages spontaneous meetings and collaborative work, breaking down traditional silos.",
      "Double-height spaces and internal greenery create a 'lung' for the building, improving air quality and employee well-being."),
    About(
      "Challenging the standard residential block, the design uses shifted volumes to create private courtyards and unique vistas from every room.",
      "The exterior is wrapped in a custom-perforated screen that provides privacy while allowing the building to 'breathe' and glow at night."),
    About(
      "Community engagement was key to the design, resulting in shared rooftop gardens and a ground-floor cafe that serves both residents and the public.",
      "A modular construction approach allowed for high-quality finishes while reducing the impact on the existing neighborhood during build."),
    About(
      "The centre is defined by its sweeping roofline, which draws inspiration from the local topography and provides a sense of enclosure and shelter.",
      "Natural light is used as a wayfinding tool, guiding visitors through the various community facilities and multi-purpose halls."),
    About(
      "Designed for a family that loves to entertain, the ground floor is a seamless indoor-outdoor space that doubles the living area.",
      "Smart storage solutions are integrated into the architecture, ensuring that the minimalist aesthetic can be maintained in daily life."),
    About(
      "The loft celebrates the raw beauty of its brickwork and steel trusses, which have been painstakingly restored and left exposed.",
      "New insertions are clearly defined as modern elements, creating a clear distinction between the historic shell and the contemporary life within."),
    About(
      "Lightweight and ethereal, the pavilion is designed to have a minimal physical impact on the site, floating above the grass on steel pins.",
      "The timber cladding will weather over time, allowing the structure to further blend into the natural colours of the parkland."),
    About(
      "The house is organized into three pavilions, separated by landscaped courtyards that bring the 'woods' into the very heart of the home.",
      "Large sliding panels allow the house to be completely opened up during summer, effectively turning the living room into an outdoor deck."),
    About(
      "Technology and architecture are perfectly integrated, with hidden acoustic treatments and flexible power solutions that adapt to any team size.",
      "A focus on natural materials—stone, wood, and linen—creates an office environment that feels calm, focused, and professional."),
    About(
      "The project captures the essence of the Elwood coastline, with a facade that mimics the movement of sand dunes through soft curves.",
      "Interior spaces are bleached by the sun, featuring light-coloured oaks and sandy limestones that reflect the coastal light."),
    About(
      "The gym is designed to be an atmospheric escape, utilizing dark tones and focused lighting to create a space of concentration and energy.",
      "A central sculptural staircase connects the different zones, acting as both a physical link and a piece of functional art."),
    About(
      "The library is more than a place for books; it is a digital lab, a quiet study zone, and a community meeting place wrapped in a welcoming glass skin.",
      "Vibrant internal colors contrast with the cool external facade, creating a sense of energy and discovery as you enter."),
    About(
      "The redevelopment introduces a new luxury hotel and retail precinct to Malvern, unified by a consistent architectural language.",
      "Heritage elements are preserved while new, bold forms provide the density needed for a modern, thriving commercial destination.")
  ]

  const Table: seq<Row> := [
    Row("Armadale Office", "Commercial", "2025", None),
    Row("Caulfield North", "Residential", "2024", None),
    Row("Penthouse Vivace", "Residential", "2025", None),
    Row("Southbank Tower", "Multi-residential", "2023", None),
    Row("Parlington", "Residential", "2024", None),
    Row("Loller", "Commercial", "2025", None),
    Row("Half Courtyard House", "Residential", "2023", Some("half-courtyard")),
    Row("Italian Club Apartments", "Multi-residential", "2024", Some("italian-club")),
    Row("Cobram Community Centre", "Public", "2022", Some("cobram-community")),
    Row("Fitzroy North Residence", "Residential", "2025", Some("fitzroy-north")),
    Row("Richmond Loft", "Residential", "2024", None),
    Row("St Kilda Pavilion", "Public", "2023", None),
    Row("Kew Woods House", "Residential", "2025", Some("kew-woods")),
    Row("Hawthorn Office", "Commercial", "2024", None),
    Row("Elwood Apartment", "Residential", "2023", None),
    Row("South Yarra Gym", "Retail", "2025", None),
    Row("Carlton Library", "Public", "2024", None),
    Row("Malvern Central", "Commercial", "2023", None)
  ]

  // ------------------------------------------------------------ slugs

  /** `replace(/\s+/g, '-')`: every maximal run of whitespace becomes a
      single `-`. `inRun` says whether the character before `s` was
      whitespace (so the run it belongs to already produced its `-`). */
  function DashRuns(s: string, inRun: bool): (r: string)
    ensures NoSpace(r)
    ensures (forall i :: 0 <= i < |s| ==> !IsUpper(s[i])) ==> forall i :: 0 <= i < |r| ==> !IsUpper(r[i])
  {
    if s == [] then []
    else if !IsSpace(s[0]) then [s[0]] + DashRuns(s[1..], false)
    else if inRun then DashRuns(s[1..], true)
    else "-" + DashRuns(s[1..], true)
  }

  /** `title.toLowerCase().replace(/\s+/g, '-')`. */
  function Slugify(title: string): (r: string)
    ensures NoSpace(r)
    ensures forall i :: 0 <= i < |r| ==> !IsUpper(r[i])
  {
    DashRuns(Lower(title), false)
  }

  /** `p.slug || <derived>`: an absent or empty override is falsy. */
  function SlugOf(row: Row): string {
    if row.slug.Some? && row.slug.value != "" then row.slug.value else Slugify(row.title)
  }

  lemma {:induction false} DashRunsIdentity(s: string, inRun: bool)
    requires NoSpace(s)
    ensures DashRuns(s, inRun) == s
  {
    if s != [] {
      DashRunsIdentity(s[1..], false);
    }
  }

  /** Text without whitespace is copied, and the run state is reset. */
  lemma {:induction false} DashRunsWord(w: string, t: string, inRun: bool)
    requires w != [] && NoSpace(w)
    ensures DashRuns(w + t, inRun) == w + DashRuns(t, false)
  {
    assert (w + t)[0] == w[0] && (w + t)[1..] == w[1..] + t;
    if |w| == 1 {
      assert w[1..] + t == t;
    } else {
      DashRunsWord(w[1..], t, false);
    }
  }

  /** Inside a run, further whitespace produces nothing. */
  lemma {:induction false} DashRunsInRun(sp: string, t: string)
    requires forall i :: 0 <= i < |sp| ==> IsSpace(sp[i])
    ensures DashRuns(sp + t, true) == DashRuns(t, true)
  {
    if sp == [] {
      assert sp + t == t;
    } else {
      assert (sp + t)[0] == sp[0] && IsSpace(sp[0]);
      assert (sp + t)[1..] == sp[1..] + t;
      DashRunsInRun(sp[1..], t);
    }
  }

  /** One whitespace run, however long, becomes exactly one `-`. */
  lemma DashRunsCollapse(sp: string, t: string)
    requires sp != [] && forall i :: 0 <= i < |sp| ==> IsSpace(sp[i])
    requires t == [] || !IsSpace(t[0])
    ensures DashRuns(sp + t, false) == "-" + DashRuns(t, false)
  {
    assert (sp + t)[0] == sp[0] && IsSpace(sp[0]);
    assert (sp + t)[1..] == sp[1..] + t;
    DashRunsInRun(sp[1..], t);
  }

  /** Deriving a slug from a slug changes nothing. */
  lemma SlugifyIdempotent(title: string)
    ensures Slugify(Slugify(title)) == Slugify(title)
  {
    var s := Slugify(title);
    LowerFixed(s);
    DashRunsIdentity(s, false);
  }

  /** A title of words separated by single spaces gives its lower-cased
      words joined by `-`. */
  lemma {:induction false} SlugifyWords(ws: seq<string>)
    requires forall j :: 0 <= j < |ws| ==> ws[j] != [] && NoSpace(ws[j])
    ensures Slugify(Join(ws, " ")) == Join(LowerAll(ws), "-")
  {
    LowerJoin(ws);
    DashRunsWords(LowerAll(ws));
  }

  function LowerAll(ws: seq<string>): (r: seq<string>)
    ensures |r| == |ws| && forall j :: 0 <= j < |ws| ==> r[j] == Lower(ws[j])
  {
    if ws == [] then [] else [Lower(ws[0])] + LowerAll(ws[1..])
  }

  lemma {:induction false} LowerJoin(ws: seq<string>)
    ensures Lower(Join(ws, " ")) == Join(LowerAll(ws), " ")
  {
    if |ws| > 1 {
      LowerAppend(ws[0] + " ", Join(ws[1..], " "));
      LowerAppend(ws[0], " ");
      LowerJoin(ws[1..]);
      assert LowerAll(ws)[1..] == LowerAll(ws[1..]);
    }
  }

  lemma {:induction false} DashRunsWords(ws: seq<string>)
    requires forall j :: 0 <= j < |ws| ==> ws[j] != [] && NoSpace(ws[j])
    ensures DashRuns(Join(ws, " "), false) == Join(ws, "-")
  {
    if |ws| == 1 {
      DashRunsIdentity(ws[0], false);
    } else if |ws| > 1 {
      var rest := Join(ws[1..], " ");
      assert ws[0] + " " + rest == ws[0] + (" " + rest);
      DashRunsWord(ws[0], " " + rest, false);
      assert ws[1] != [] && !IsSpace(ws[1][0]);
      assert rest == [] || !IsSpace(rest[0]);
      DashRunsCollapse(" ", rest);
      DashRunsWords(ws[1..]);
    }
  }

  // ----------------------------------------------------------- records

  const UnderConstruction := "Under Construction"
  const Completed := "Completed"

  /** `parseInt(year) >= 2024 ? 'Under Construction' : 'Completed'`;
      a year with no leading digit parses to NaN, which compares false. */
  function Status(year: string): string {
    match ParseIntPrefix(year)
    case Some(v) => if v >= 2024 then UnderConstruction else Completed
    case None => Completed
  }

  /** The record built for row `i` of the table. The three text arrays are
      indexed by `i`, so the row must have an entry in each of them. */
  function Record(row: Row, i: nat): Project
    requires i < |Descriptions| && i < |Quotes| && i < |Abouts|
  {
    var slug := SlugOf(row);
    Project(
      i + 1,
      slug,
      row.title,
      row.category,
      row.year,
      ["/assets/" + slug + "/hero.jpg", "/assets/" + slug + "/1.jpg", "/assets/" + slug + "/2.jpg"],
      row.title + " Client",
      row.category,
      Status(row.year),
      "/assets/" + slug + "/hero.jpg",
      Details(Descriptions[i], "Victoria, Australia", "Melbourne", "LBA Construction Group", "Architecture"),
      Quotes[i],
      Abouts[i].p1,
      "/assets/" + slug + "/detail.jpg",
      Abouts[i].p2)
  }

  /** `projectsData`: the table mapped with its indices. */
  const ProjectsData: seq<Project> :=
    seq(|Table|, i requires 0 <= i < |Table| => Record(Table[i], i))

  // ----------------------------------------------------------- properties

  /** The three parallel arrays have exactly one entry per table row. */
  lemma ParallelArraysFit()
    ensures |Table| == 18 && |ProjectsData| == |Table|
    ensures |Descriptions| == |Table| && |Quotes| == |Table| && |Abouts| == |Table|
  {
  }

  /** Every record carries its position plus one as id, and its row's
      title, category and year; its slug is the row's override or the one
      derived from the title. */
  lemma RecordIdentity(i: nat)
    requires i < |ProjectsData|
    ensures ProjectsData[i].id == i + 1
    ensures ProjectsData[i].slug == SlugOf(Table[i])
    ensures ProjectsData[i].title == Table[i].title
    ensures ProjectsData[i].category == Table[i].category
    ensures ProjectsData[i].year == Table[i].year
  {
  }

  /** Exactly three images under the slug's folder, hero first; the hero
      image is the first image; the detail image is in the same folder. */
  lemma RecordAssets(i: nat)
    requires i < |ProjectsData|
    ensures var p := ProjectsData[i];
      && p.images == ["/assets/" + p.slug + "/hero.jpg", "/assets/" + p.slug + "/1.jpg", "/assets/" + p.slug + "/2.jpg"]
      && p.heroImage == p.images[0]
      && p.image2 == "/assets/" + p.slug + "/detail.jpg"
  {
  }

  /** Typology repeats the category, the client is "<title> Client", and
      the status is the one the year determines. */
  lemma RecordDerived(i: nat)
    requires i < |ProjectsData|
    ensures var p := ProjectsData[i];
      && p.typology == p.category
      && p.client == p.title + " Client"
      && p.status == Status(p.year)
  {
  }

  /** Record `i` takes its texts from index `i` of the three arrays. */
  lemma RecordTexts(i: nat)
    requires i < |ProjectsData|
    ensures ProjectsData[i].details.description == Descriptions[i]
    ensures ProjectsData[i].quote == Quotes[i]
    ensures ProjectsData[i].about1 == Abouts[i].p1
    ensures ProjectsData[i].about2 == Abouts[i].p2
  {
  }

  /** For a year written in digits, the status is "Under Construction"
      exactly when the year is at least 2024. */
  lemma StatusByYear(year: string)
    requires year != [] && AllDigits(year)
    ensures Status(year) == UnderConstruction <==> ParseNat(year) >= 2024
    ensures Status(year) == Completed <==> ParseNat(year) < 2024
  {
  }

  /** The table uses five categories. */
  lemma TableCategories()
    ensures forall i :: 0 <= i < |Table| ==>
      Table[i].category in ["Commercial", "Residential", "Multi-residential", "Public", "Retail"]
  {
  }

  /** No two rows share a title, so a lookup by title is unambiguous. */
  lemma TitlesDistinct()
    ensures forall i, j :: 0 <= i < j < |Table| ==> Table[i].title != Table[j].title
  {
    TitleKeysDistinct();
    TitleKeysOfTable();
  }

  /** Length, first and last character of each title, in table order. */
  ghost const TitleKeys: seq<(nat, char, char)> := [
    (15, 'A', 'e'), (15, 'C', 'h'), (16, 'P', 'e'), (15, 'S', 'r'), (10, 'P', 'n'), (6, 'L', 'r'),
    (20, 'H', 'e'), (23, 'I', 's'), (23, 'C', 'e'), (23, 'F', 'e'), (13, 'R', 't'), (17, 'S', 'n'),
    (15, 'K', 'e'), (15, 'H', 'e'), (16, 'E', 't'), (15, 'S', 'm'), (15, 'C', 'y'), (15, 'M', 'l')
  ]

  lemma TitleKeysOfTable()
    ensures |Table| == |TitleKeys|
    ensures forall k :: 0 <= k < |Table| ==> SlugKey(Table[k].title) == TitleKeys[k]
  {
    TitleKeysOfRows0();
    TitleKeysOfRows6();
    TitleKeysOfRows12();
  }

  /** The title keys of rows 0 to 5, 6 to 11 and 12 to 17. */
  lemma TitleKeysOfRows0()
    ensures |Table| == |TitleKeys| == 18
    ensures forall k :: 0 <= k < 6 ==> SlugKey(Table[k].title) == TitleKeys[k]
  {
  }

  lemma TitleKeysOfRows6()
    ensures forall k :: 6 <= k < 12 ==> SlugKey(Table[k].title) == TitleKeys[k]
  {
  }

  lemma TitleKeysOfRows12()
    ensures forall k :: 12 <= k < 18 ==> SlugKey(Table[k].title) == TitleKeys[k]
  {
  }

  lemma TitleKeysDistinct()
    ensures forall i, j :: 0 <= i < j < |TitleKeys| ==> TitleKeys[i] != TitleKeys[j]
  {
  }

  // ----------------------------------------------------- the shown table

  /** The character a title character becomes in its slug. */
  function SlugChar(c: char): char {
    if IsSpace(c) then '-' else LowerChar(c)
  }

  /** No two whitespace characters in a row. */
  predicate SingleSpaced(s: string) {
    forall i :: 0 <= i < |s| - 1 ==> !(IsSpace(s[i]) && IsSpace(s[i + 1]))
  }

  lemma {:induction false} DashRunsSingleSpaced(s: string, inRun: bool)
    requires SingleSpaced(s)
    requires inRun ==> s == [] || !IsSpace(s[0])
    ensures |DashRuns(s, inRun)| == |s|
    ensures forall i :: 0 <= i < |s| ==> DashRuns(s, inRun)[i] == if IsSpace(s[i]) then '-' else s[i]
  {
    if s != [] {
      DashRunsSingleSpaced(s[1..], IsSpace(s[0]));
    }
  }

  /** In a title without adjacent whitespace, each character maps to one
      slug character: whitespace to `-`, letters to lower case. */
  lemma SlugifySingleSpaced(t: string)
    requires SingleSpaced(t)
    ensures |Slugify(t)| == |t|
    ensures forall i :: 0 <= i < |t| ==> Slugify(t)[i] == SlugChar(t[i])
  {
    DashRunsSingleSpaced(Lower(t), false);
  }

  /** Length, first and last character: enough to tell the catalogue's
      slugs apart. */
  function SlugKey(s: string): (nat, char, char) {
    if s == [] then (0, ' ', ' ') else (|s|, s[0], s[|s| - 1])
  }

  ghost const SlugKeys: seq<(nat, char, char)> := [
    (15, 'a', 'e'),
    (15, 'c', 'h'),
    (16, 'p', 'e'),
    (15, 's', 'r'),
    (10, 'p', 'n'),
    (6, 'l', 'r'),
    (14, 'h', 'd'),
    (12, 'i', 'b'),
    (16, 'c', 'y'),
    (13, 'f', 'h'),
    (13, 'r', 't'),
    (17, 's', 'n'),
    (9, 'k', 's'),
    (15, 'h', 'e'),
    (16, 'e', 't'),
    (15, 's', 'm'),
    (15, 'c', 'y'),
    (15, 'm', 'l')
  ]

  lemma TitleKey(t: string)
    requires t != [] && SingleSpaced(t)
    ensures SlugKey(Slugify(t)) == (|t|, SlugChar(t[0]), SlugChar(t[|t| - 1]))
  {
    SlugifySingleSpaced(t);
  }

  lemma RowTitleKey(row: Row)
    requires row.slug == None && row.title != [] && SingleSpaced(row.title)
    ensures var t := row.title;
      SlugKey(SlugOf(row)) == (|t|, SlugChar(t[0]), SlugChar(t[|t| - 1]))
  {
    TitleKey(row.title);
  }

  // One lemma per derived title: its spacing, then the key of its slug.
  // (Kept apart so that each literal is unfolded in a small context.)

  lemma ArmadaleOfficeSpaced(t: string)
    requires t == "Armadale Office"
    ensures t != [] && SingleSpaced(t)
  {
  }

  lemma ArmadaleOfficeKey(row: Row)
    requires row.title == "Armadale Office" && row.slug == None
    ensures SlugKey(SlugOf(row)) == (15, 'a', 'e')
  {
    ArmadaleOfficeSpaced(row.title);
    RowTitleKey(row);
  }

  lemma CaulfieldNorthSpaced(t: string)
    requires t == "Caulfield North"
    ensures t != [] && SingleSpaced(t)
  {
  }

  lemma CaulfieldNorthKey(row: Row)
    requires row.title == "Caulfield North" && row.slug == None
    ensures SlugKey(SlugOf(row)) == (15, 'c', 'h')
  {
    CaulfieldNorthSpaced(row.title);
    RowTitleKey(row);
  }

  lemma PenthouseVivaceSpaced(t: string)
    requires t == "Penthouse Vivace"
    ensures t != [] && SingleSpaced(t)
  {
  }

  lemma PenthouseVivaceKey(row: Row)
    requires row.title == "Penthouse Vivace" && row.slug == None
    ensures SlugKey(SlugOf(row)) == (16, 'p', 'e')
  {
    PenthouseVivaceSpaced(row.title);
    RowTitleKey(row);
  }

  lemma SouthbankTowerSpaced(t: string)
    requires t == "Southbank Tower"
    ensures t != [] && SingleSpaced(t)
  {
  }

  lemma SouthbankTowerKey(row: Row)
    requires row.title == "Southbank Tower" && row.slug == None
    ensures SlugKey(SlugOf(row)) == (15, 's', 'r')
  {
    SouthbankTowerSpaced(row.title);
    RowTitleKey(row);
  }

  lemma ParlingtonSpaced(t: string)
    requires t == "Parlington"
    ensures t != [] && SingleSpaced(t)
  {
  }

  lemma ParlingtonKey(row: Row)
    requires row.title == "Parlington" && row.slug == None
    ensures SlugKey(SlugOf(row)) == (10, 'p', 'n')
  {
    ParlingtonSpaced(row.title);
    RowTitleKey(row);
  }

  lemma LollerSpaced(t: string)
    requires t == "Loller"
    ensures t != [] && SingleSpaced(t)
  {
  }

  lemma LollerKey(row: Row)
    requires row.title == "Loller" && row.slug == None
    ensures SlugKey(SlugOf(row)) == (6, 'l', 'r')
  {
    LollerSpaced(row.title);
    RowTitleKey(row);
  }

  lemma RichmondLoftSpaced(t: string)
    requires t == "Richmond Loft"
    ensures t != [] && SingleSpaced(t)
  {
  }

  lemma RichmondLoftKey(row: Row)
    requires row.title == "Richmond Loft" && row.slug == None
    ensures SlugKey(SlugOf(row)) == (13, 'r', 't')
  {
    RichmondLoftSpaced(row.title);
    RowTitleKey(row);
  }

  lemma StKildaPavilionSpaced(t: string)
    requires t == "St Kilda Pavilion"
    ensures t != [] && SingleSpaced(t)
  {
  }

  lemma StKildaPavilionKey(row: Row)
    requires row.title == "St Kilda Pavilion" && row.slug == None
    ensures SlugKey(SlugOf(row)) == (17, 's', 'n')
  {
    StKildaPavilionSpaced(row.title);
    RowTitleKey(row);
  }

  lemma HawthornOfficeSpaced(t: string)
    requires t == "Hawthorn Office"
    ensures t != [] && SingleSpaced(t)
  {
  }

  lemma HawthornOfficeKey(row: Row)
    requires row.title == "Hawthorn Office" && row.slug == None
    ensures SlugKey(SlugOf(row)) == (15, 'h', 'e')
  {
    HawthornOfficeSpaced(row.title);
    RowTitleKey(row);
  }

  lemma ElwoodApartmentSpaced(t: string)
    requires t == "Elwood Apartment"
    ensures t != [] && SingleSpaced(t)
  {
  }

  lemma ElwoodApartmentKey(row: Row)
    requires row.title == "Elwood Apartment" && row.slug == None
    ensures SlugKey(SlugOf(row)) == (16, 'e', 't')
  {
    ElwoodApartmentSpaced(row.title);
    RowTitleKey(row);
  }

  lemma SouthYarraGymSpaced(t: string)
    requires t == "South Yarra Gym"
    ensures t != [] && SingleSpaced(t)
  {
  }

  lemma SouthYarraGymKey(row: Row)
    requires row.title == "South Yarra Gym" && row.slug == None
    ensures SlugKey(SlugOf(row)) == (15, 's', 'm')
  {
    SouthYarraGymSpaced(row.title);
    RowTitleKey(row);
  }

  lemma CarltonLibrarySpaced(t: string)
    requires t == "Carlton Library"
    ensures t != [] && SingleSpaced(t)
  {
  }

  lemma CarltonLibraryKey(row: Row)
    requires row.title == "Carlton Library" && row.slug == None
    ensures SlugKey(SlugOf(row)) == (15, 'c', 'y')
  {
    CarltonLibrarySpaced(row.title);
    RowTitleKey(row);
  }

  lemma MalvernCentralSpaced(t: string)
    requires t == "Malvern Central"
    ensures t != [] && SingleSpaced(t)
  {
  }

  lemma MalvernCentralKey(row: Row)
    requires row.title == "Malvern Central" && row.slug == None
    ensures SlugKey(SlugOf(row)) == (15, 'm', 'l')
  {
    MalvernCentralSpaced(row.title);
    RowTitleKey(row);
  }

  /** A row with a non-empty explicit slug uses it as it is. */
  lemma ExplicitSlug(row: Row, slug: string)
    requires row.slug == Some(slug) && slug != ""
    ensures SlugOf(row) == slug
  {
  }

  /** Row `k`'s slug has the key listed for it: derived slugs through the
      per-title lemmas, explicit ones as they are. */
  lemma RowKeys(k: nat)
    requires k < |Table|
    ensures SlugKey(SlugOf(Table[k])) == SlugKeys[k]
  {
    if k < 6 { RowKeys0(k); }
    else if k < 12 { RowKeys6(k); }
    else { RowKeys12(k); }
  }

  lemma RowKeys0(k: nat)
    requires 0 <= k < 6
    ensures SlugKey(SlugOf(Table[k])) == SlugKeys[k]
  {
    if k == 0 { ArmadaleOfficeKey(Table[0]); }
    else if k == 1 { CaulfieldNorthKey(Table[1]); }
    else if k == 2 { PenthouseVivaceKey(Table[2]); }
    else if k == 3 { SouthbankTowerKey(Table[3]); }
    else if k == 4 { ParlingtonKey(Table[4]); }
    else if k == 5 { LollerKey(Table[5]); }
  }

  lemma RowKeys6(k: nat)
    requires 6 <= k < 12
    ensures SlugKey(SlugOf(Table[k])) == SlugKeys[k]
  {
    if k == 6 { ExplicitSlug(Table[6], "half-courtyard"); }
    else if k == 7 { ExplicitSlug(Table[7], "italian-club"); }
    else if k == 8 { ExplicitSlug(Table[8], "cobram-community"); }
    else if k == 9 { ExplicitSlug(Table[9], "fitzroy-north"); }
    else if k == 10 { RichmondLoftKey(Table[10]); }
    else if k == 11 { StKildaPavilionKey(Table[11]); }
  }

  lemma RowKeys12(k: nat)
    requires 12 <= k < 18
    ensures SlugKey(SlugOf(Table[k])) == SlugKeys[k]
  {
    if k == 12 { ExplicitSlug(Table[12], "kew-woods"); }
    else if k == 13 { HawthornOfficeKey(Table[13]); }
    else if k == 14 { ElwoodApartmentKey(Table[14]); }
    else if k == 15 { SouthYarraGymKey(Table[15]); }
    else if k == 16 { CarltonLibraryKey(Table[16]); }
    else if k == 17 { MalvernCentralKey(Table[17]); }
  }

  /** Every slug the table yields is different from every other, so a
      slug names at most one project. */
  lemma SlugsDistinct()
    ensures forall i, j :: 0 <= i < j < |ProjectsData| ==> ProjectsData[i].slug != ProjectsData[j].slug
  {
    ParallelArraysFit();
    SlugKeysDistinct();
    forall i, j | 0 <= i < j < |ProjectsData|
      ensures ProjectsData[i].slug != ProjectsData[j].slug
    {
      RecordIdentity(i);
      RecordIdentity(j);
      RowKeys(i);
      RowKeys(j);
    }
  }
  lemma SlugKeysDistinct()
    ensures |SlugKeys| == 18
    ensures forall i, j :: 0 <= i < j < |SlugKeys| ==> SlugKeys[i] != SlugKeys[j]
  {
  }
}
