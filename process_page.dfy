/**
 * The process page's stacking initiative cards: each card sticks a little
 * lower than the one before it, and its texts are split over two columns,
 * the left one taking the larger half.
 */
module ProcessPage {

  datatype Initiative = Initiative(title: string, texts: seq<string>, bgColor: string, logo: string)

  const Initiatives: seq<Initiative> := [
    Initiative(
      "Sustainability Action Plan",
      [
        "We view environmental design as integral to the longevity and success of all architectural and design projects. As architects and designers, we are responsible for shaping the landscapes of the future.",
        "We recognise that buildings are long-term contributions to the environment and have generational impacts on the landscapes that they occupy. We envisage a future where all built form contributes positively to the surrounding ecology, utilising minimum energy, water and waste, and improving all forms of life.",
        "At Maison More, it's important that we approach our Sustainability Action Plan meaningfully, establishing commitments which are realistic within set timeframes.",
        "Through actionable steps, we acknowledge that we can achieve our long-term aspirations through incremental change both within our practice and through our projects to make a positive contribution to our environment.",
        "SAP Document available on request."
      ],
      "bg-[#9b3218]",
      "/assets/armadale-office/hero.jpg"),
    Initiative(
      "Reconciliation Action Plan",
      [
        "For us, reconciliation is a process of building respectful relationships and implementing actions that lead to the...",
        "Our Reconciliation Action Plan is intended to be a meaningful resource which involves all staff and..."
      ],
      "bg-[#d1d3d4]",
      "/assets/caulfield-north/hero.jpg"),
    Initiative(
      "Quality Management System",
      [
        "As part of our ISO 9001:2015 certification, Maison More operates in a manner that consistently meets or exceeds the quality standards set by our stakeholders. We pride ourselves on the importance we place on personalised client management and communication, and strive to consistently provide clients with the highest quality work, backed by our extensive local knowledge and experience.",
        "Our key drivers are enhanced living, design integrity and innovation. To achieve our quality goals, we are committed to continual improvement of our...",
        "Our Senior Management team are committed to maintaining and improving our QMS to satisfy clients by providing them with service that meets their requirements. Our QMS applies a process approach to quality management, integrating QMS requirements into our business processes."
      ],
      "bg-[#9b3218]",
      "/assets/penthouse-vivace/hero.jpg"),
    Initiative(
      "100% Green Power",
      [
        "We are committed to reducing our carbon footprint and have transitioned to 100% Green Power for our studio operations."
      ],
      "bg-[#d1d3d4]",
      "/assets/southbank-tower/hero.jpg")
  ]

  /** `Math.ceil(n / 2)` for a count. */
  function HalfUp(n: nat): (h: nat)
    ensures h + h == n || h + h == n + 1
  {
    (n + 1) / 2
  }

  /** `texts.slice(0, ceil(n / 2))` and `texts.slice(ceil(n / 2))`. */
  function Columns(texts: seq<string>): (cols: (seq<string>, seq<string>))
    ensures |cols.0| == HalfUp(|texts|) && |cols.1| == |texts| / 2
    ensures cols.0 + cols.1 == texts
  {
    var k := HalfUp(|texts|);
    (texts[..k], texts[k..])
  }

  /** The left column is never shorter than the right one, and by at most
      one text longer. */
  lemma ColumnsBalanced(texts: seq<string>)
    ensures |Columns(texts).1| <= |Columns(texts).0| <= |Columns(texts).1| + 1
  {
  }

  /** A single text goes to the left column alone. */
  lemma SingleTextLeft(t: string)
    ensures Columns([t]) == ([t], [])
  {
    assert [t][..1] == [t] && [t][1..] == [];
  }

  /** `top: ${10 + index * 5}vh`. */
  function StickyTopVh(index: nat): (vh: nat)
    ensures vh == 10 + 5 * index
    ensures vh >= 10 && (vh - 10) % 5 == 0
  {
    10 + index * 5
  }

  /** Later cards stick strictly lower, so each stacks below the last. */
  lemma StickyTopIncreasing(i: nat, j: nat)
    requires i < j
    ensures StickyTopVh(i) < StickyTopVh(j)
  {
  }

  /** One rendered card. */
  datatype Card = Card(topVh: nat, title: string, left: seq<string>, right: seq<string>)

  /** `initiatives.map((item, index) => ...)`. */
  function Cards(items: seq<Initiative>): (cs: seq<Card>)
    ensures |cs| == |items|
    ensures forall i :: 0 <= i < |cs| ==>
      cs[i].topVh == StickyTopVh(i) && cs[i].title == items[i].title
      && cs[i].left + cs[i].right == items[i].texts
      && |cs[i].left| == HalfUp(|items[i].texts|)
  {
    seq(|items|, i requires 0 <= i < |items| =>
      var cols := Columns(items[i].texts);
      Card(StickyTopVh(i), items[i].title, cols.0, cols.1))
  }

  /** On the page: four cards with 5, 2, 3 and 1 texts; the last one has
      an empty right column. */
  lemma PageCards()
    ensures |Initiatives| == 4
    ensures |Initiatives[0].texts| == 5 && |Initiatives[1].texts| == 2
    ensures |Initiatives[2].texts| == 3 && |Initiatives[3].texts| == 1
    ensures Cards(Initiatives)[3].right == [] && Cards(Initiatives)[3].left == Initiatives[3].texts
    ensures Cards(Initiatives)[3].topVh == 25
  {
    SingleTextLeft(Initiatives[3].texts[0]);
    assert Initiatives[3].texts == [Initiatives[3].texts[0]];
  }
}
