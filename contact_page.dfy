/**
 * The contact page's headline ends in a city name that changes every two
 * seconds.
 */
module ContactPage {
  import opened Cycle

  const ContactCities: seq<string> :=
    ["Victoria", "Sydney", "Brisbane", "Perth", "Adelaide", "Hobart", "Darwin", "Canberra"]

  class ContactHeadline {
    const cities: Carousel

    ghost predicate Valid()
      reads this, cities
    {
      cities.Valid() && cities.items == ContactCities
    }

    /** The headline starts on the first city. */
    constructor ()
      ensures Valid() && fresh(cities) && cities.index == 0 && City() == "Victoria"
    {
      cities := new Carousel(ContactCities);
    }

    /** The interval callback; after the last city the first comes back. */
    method Tick()
      requires Valid()
      modifies cities
      ensures Valid()
      ensures cities.index == Next(old(cities.index), |ContactCities|)
      ensures old(City()) == "Canberra" ==> City() == "Victoria"
    {
      cities.Tick();
    }

    /** The city on screen, `cities[cityIndex]`. */
    function City(): (c: string)
      reads this, cities
      requires Valid()
      ensures c in ContactCities && c == ContactCities[cities.index]
    {
      cities.Current()
    }
  }
}
