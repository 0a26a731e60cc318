/**
 * The studio page's floating "Let's work together in <city>" link: a city
 * name that changes on a timer, an entrance and exit around the quote
 * section, and docking at the end of the jobs section with offsets that
 * depend on the viewport width.
 */
module StudioFloatingButton {
  import opened Text
  import opened Docking
  import opened Cycle

  const StudioCities: seq<string> :=
    ["Belarus", "Russia", "France", "Italy", "Germany", "Poland", "USA", "Kazakhstan"]

  /** The link target. */
  const ContactRoute := "/contact"

  class StudioButton {
    const target: string
    const cities: Carousel
    const element: ButtonElement

    ghost predicate Valid()
      reads this, cities
    {
      cities.Valid() && cities.items == StudioCities
    }

    /** The button starts hidden, on the first city, linking to the
        contact page. */
    constructor ()
      ensures Valid() && target == ContactRoute
      ensures fresh(cities) && cities.index == 0 && cities.Current() == "Belarus"
      ensures fresh(element) && !element.shown && element.position == Unset && element.bottomRem == None
    {
      target := ContactRoute;
      cities := new Carousel(StudioCities);
      element := new ButtonElement(false);
    }

    /** The interval callback, after its roll animation swaps the text. */
    method Tick()
      requires Valid()
      modifies cities
      ensures Valid()
      ensures cities.index == Next(old(cities.index), |StudioCities|)
      ensures cities.index == cities.ticks % 8
    {
      cities.Tick();
    }

    /** The city on screen. */
    function City(): (c: string)
      reads this, cities
      requires Valid()
      ensures c in StudioCities && c == StudioCities[cities.index]
    {
      cities.Current()
    }

    /** Scrolling into the quote section animates the button in. */
    method QuoteEnter()
      modifies element
      ensures element.shown
      ensures element.position == old(element.position) && element.bottomRem == old(element.bottomRem)
    {
      element.Show();
    }

    /** Scrolling back above the quote section animates it out. */
    method QuoteLeaveBack()
      modifies element
      ensures !element.shown
      ensures element.position == old(element.position) && element.bottomRem == old(element.bottomRem)
    {
      element.Hide();
    }

    /** Scrolling back into the jobs section pins the button to the
        viewport, 1rem up on mobile widths and 2rem otherwise. */
    method JobsEnterBack(width: int)
      modifies element
      ensures element.position == Fixed
      ensures element.bottomRem == Some(if width < 768 then 1 else 2)
      ensures element.shown == old(element.shown)
    {
      element.Place(Fixed, ByWidth(width, 1, 2));
    }

    /** Scrolling past the jobs section docks the button, 2rem up on mobile
        widths and 4rem otherwise. */
    method JobsLeave(width: int)
      modifies element
      ensures element.position == Absolute
      ensures element.bottomRem == Some(if width < 768 then 2 else 4)
      ensures element.shown == old(element.shown)
    {
      element.Place(Absolute, ByWidth(width, 2, 4));
    }
  }
}
