/**
 The state of the saved-cities page (app/ciudades/page.tsx): the query box, the
 ordered list `cities`, the error line, and the storage slot `localStorage["ciudades"]`
 that every change of the list is written through to.

 Handlers run one at a time here; the weather service's answer to a request for a
 name is `lookup(name)`, and `now` is the clock reading `Date.now()` would give.
 */
module CitiesPage {
  import opened Wrappers
  import opened Seqs
  import opened Cities
  import opened CityLookup

  class CitiesPage {
    /** `NEXT_PUBLIC_WEATHER_API_KEY`; "" when it is not set. */
    const apiKey: string
    var query: string
    var cities: seq<CityWeather>
    var error: Option<string>
    var storage: Slot

    /** Storage holds exactly the list on screen. */
    ghost predicate Mirrored()
      reads this
    {
      storage == Saved(cities)
    }

    /** The page as mounted: empty query, empty list, no error, and whatever the browser had stored. */
    constructor (apiKey: string, stored: Slot)
      ensures this.apiKey == apiKey && storage == stored
      ensures query == "" && cities == [] && error == None
    {
      this.apiKey := apiKey;
      query := "";
      cities := [];
      error := None;
      storage := stored;
    }

    /** The effect on `[cities]`: a non-empty list is written to storage. */
    method SyncEffect()
      modifies this
      ensures cities == old(cities) && query == old(query) && error == old(error)
      ensures storage == if cities != [] then Saved(cities) else old(storage)
      ensures cities != [] ==> Mirrored()
    {
      if cities != [] {
        storage := Saved(cities);
      }
    }

    /**
     `init`: a non-empty saved list is adopted as it is; text that is not JSON makes the
     parse throw and nothing happens; otherwise the default cities are looked up and the
     ones that resolve become the list and are stored.
     */
    method Init(lookup: string -> Response, now: nat)
      modifies this
      ensures query == old(query)
      ensures old(storage).Malformed? ==>
        cities == old(cities) && storage == old(storage) && error == old(error)
      ensures AdoptsSaved(old(storage)) ==>
        cities == old(storage).list && storage == old(storage) && error == old(error) && Mirrored()
      ensures FallsBackToDefaults(old(storage)) ==>
        && cities == ResolveDefaults(apiKey, lookup, now)
        && |cities| <= |DefaultCityNames|
        && Mirrored()
        && error == (if apiKey == "" then Some(MissingKeyMessage) else old(error))
    {
      match storage {
        case Malformed =>
          // JSON.parse throws: init stops before touching any state
          return;
        case Saved(list) =>
          if list != [] {
            cities := list;
            SyncEffect();
            return;
          }
        case _ =>
      }
      var results := DefaultLookups(apiKey, lookup, now);
      if apiKey == "" {
        // every call of fetchCityWeather sets the same message
        error := Some(MissingKeyMessage);
      }
      cities := Somes(results);
      storage := Saved(cities);
      SyncEffect();
    }

    /** The query box's `onChange`. */
    method SetQuery(q: string)
      modifies this
      ensures query == q
      ensures cities == old(cities) && storage == old(storage) && error == old(error)
    {
      query := q;
    }

    /** The city a search for `q` finds: the lookup of the trimmed query. */
    function SearchFinds(q: string, lookup: string -> Response, now: nat): Option<CityWeather>
    {
      FetchCityWeather(apiKey, lookup(Trim(q)), now).city
    }

    /**
     `handleSearch`: a blank query does nothing; a lookup that yields no city leaves the
     list and storage as they were and shows "Ciudad no encontrada"; a city that is found
     is appended, the new list is stored, the error is cleared and the query emptied.
     */
    method HandleSearch(lookup: string -> Response, now: nat)
      modifies this
      ensures Trim(old(query)) == "" ==> unchanged(this)
      ensures Trim(old(query)) != "" && SearchFinds(old(query), lookup, now).None? ==>
        && query == old(query) && cities == old(cities) && storage == old(storage)
        && error == Some(NotFoundMessage)
      ensures Trim(old(query)) != "" && SearchFinds(old(query), lookup, now).Some? ==>
        && cities == old(cities) + [SearchFinds(old(query), lookup, now).value]
        && Mirrored() && query == "" && error == None
      ensures old(Mirrored()) ==> Mirrored()
    {
      var q := Trim(query);
      if q == "" {
        return;
      }
      error := None;
      var outcome := FetchCityWeather(apiKey, lookup(q), now);
      if outcome.error.Some? {
        error := outcome.error;
      }
      if outcome.city.None? {
        error := Some(NotFoundMessage);
        return;
      }
      var updated := cities + [outcome.city.value];
      cities := updated;
      storage := Saved(updated);
      query := "";
      SyncEffect();
    }

    /** The delete button of an entry: every entry with that id goes, and the rest is stored. */
    method Delete(id: string)
      modifies this
      ensures cities == RemoveId(old(cities), id)
      ensures Mirrored()
      ensures query == old(query) && error == old(error)
    {
      var updated := RemoveId(cities, id);
      cities := updated;
      storage := Saved(updated);
      SyncEffect();
    }

    /**
     `handleDragEnd`: without a drop target, onto itself, or when either id is not in
     the list nothing changes; otherwise the dragged entry moves to the target's
     position and the new order is stored.
     */
    method HandleDragEnd(activeId: string, overId: Option<string>)
      modifies this
      ensures query == old(query) && error == old(error)
      ensures
        var from := FindIndex(old(cities), activeId);
        var to := if overId.Some? then FindIndex(old(cities), overId.value) else -1;
        if overId.None? || overId.value == activeId || from == -1 || to == -1 then
          cities == old(cities) && storage == old(storage)
        else
          cities == ArrayMove(old(cities), from, to) && Mirrored()
      ensures old(Mirrored()) ==> Mirrored()
    {
      if overId.Some? && activeId != overId.value {
        var oldIndex := FindIndex(cities, activeId);
        var newIndex := FindIndex(cities, overId.value);
        if oldIndex != -1 && newIndex != -1 {
          var newOrder := ArrayMove(cities, oldIndex, newIndex);
          cities := newOrder;
          storage := Saved(newOrder);
          SyncEffect();
        }
      }
    }
  }
}
