/**
 The saved-cities page (app/ciudades/page.tsx): the city record, the storage slot
 `localStorage["ciudades"]`, and the three list transforms its handlers apply:
 append, remove by id, and the drag-and-drop move.
 */
module Cities {
  import opened Wrappers
  import opened Seqs

  /** `CityWeather`: one entry of the list. */
  datatype CityWeather = CityWeather(id: string, name: string, temp: real, icon: string, description: string)

  const DefaultCityNames: seq<string> := ["Madrid", "Barcelona", "Bilbao", "Málaga"]
  const MissingKeyMessage := "Falta NEXT_PUBLIC_WEATHER_API_KEY en tu .env.local"
  const NotFoundMessage := "Ciudad no encontrada"

  /**
   What `localStorage.getItem("ciudades")` gives at boot, read through `JSON.parse`:
   nothing (null or ""), text that is not JSON, JSON that is not an array, or a list.
   Every write of the page stores a whole list, so after a write the slot is `Saved`.
   */
  datatype Slot = Absent | Malformed | NotAList | Saved(list: seq<CityWeather>)

  /** Boot adopts the saved list when it is a non-empty array. */
  predicate AdoptsSaved(slot: Slot)
  {
    slot.Saved? && slot.list != []
  }

  /** Boot fetches the default cities when nothing usable is saved and parsing did not throw. */
  predicate FallsBackToDefaults(slot: Slot)
  {
    slot.Absent? || slot.NotAList? || (slot.Saved? && slot.list == [])
  }

  // ---------------------------------------------------------------------------
  // Delete: `cities.filter((c) => c.id !== id)`
  // ---------------------------------------------------------------------------

  function RemoveId(s: seq<CityWeather>, id: string): (r: seq<CityWeather>)
    ensures |r| <= |s|
    ensures forall i :: 0 <= i < |r| ==> r[i].id != id && r[i] in s
    ensures forall i :: 0 <= i < |s| && s[i].id != id ==> s[i] in r
  {
    Filter(s, (c: CityWeather) => c.id != id)
  }

  /** Removal keeps the surviving entries in their relative order. */
  lemma RemoveIdKeepsOrder(s: seq<CityWeather>, t: seq<CityWeather>, id: string)
    ensures RemoveId(s + t, id) == RemoveId(s, id) + RemoveId(t, id)
  {
    FilterConcat(s, t, (c: CityWeather) => c.id != id);
  }

  /** Removing an id no entry has leaves the list as it was. */
  lemma RemoveUnknownId(s: seq<CityWeather>, id: string)
    requires forall i :: 0 <= i < |s| ==> s[i].id != id
    ensures RemoveId(s, id) == s
  {
    FilterKeepsAll(s, (c: CityWeather) => c.id != id);
  }

  /** Deleting twice is deleting once. */
  lemma RemoveIdIdempotent(s: seq<CityWeather>, id: string)
    ensures RemoveId(RemoveId(s, id), id) == RemoveId(s, id)
  {
    RemoveUnknownId(RemoveId(s, id), id);
  }

  /** Adding a city and then deleting its id leaves no entry with that id, and the earlier survivors in order. */
  lemma AddThenDelete(s: seq<CityWeather>, c: CityWeather)
    ensures RemoveId(s + [c], c.id) == RemoveId(s, c.id)
  {
    RemoveIdKeepsOrder(s, [c], c.id);
    assert [c][1..] == [];
  }

  // ---------------------------------------------------------------------------
  // Drag and drop: `findIndex` and `arrayMove`
  // ---------------------------------------------------------------------------

  /** `cities.findIndex((c) => c.id === id)`: the first index with that id, or -1. */
  function FindIndex(s: seq<CityWeather>, id: string): (r: int)
    ensures -1 <= r < |s|
    ensures r == -1 <==> forall j :: 0 <= j < |s| ==> s[j].id != id
    ensures r >= 0 ==> s[r].id == id && forall j :: 0 <= j < r ==> s[j].id != id
  {
    if s == [] then -1
    else if s[0].id == id then 0
    else
      var k := FindIndex(s[1..], id);
      if k == -1 then -1 else k + 1
  }

  /** `s.splice(i, 1)`. */
  function RemoveAt<T>(s: seq<T>, i: nat): seq<T>
    requires i < |s|
  {
    s[..i] + s[i + 1..]
  }

  /** `s.splice(i, 0, x)`. */
  function InsertAt<T>(s: seq<T>, i: nat, x: T): seq<T>
    requires i <= |s|
  {
    s[..i] + [x] + s[i..]
  }

  /**
   `arrayMove(s, from, to)` of @dnd-kit/sortable: take the element at `from` out and put
   it back at `to`. The moved element ends at `to`, and taking it out again leaves the
   others exactly as taking it out of the original did.
   */
  function ArrayMove<T>(s: seq<T>, from: nat, to: nat): (r: seq<T>)
    requires from < |s| && to < |s|
    ensures |r| == |s|
    ensures r[to] == s[from]
    ensures RemoveAt(r, to) == RemoveAt(s, from)
  {
    var rest := RemoveAt(s, from);
    var r := InsertAt(rest, to, s[from]);
    assert RemoveAt(r, to) == rest by {
      assert r[..to] == rest[..to];
      assert r[to + 1..] == rest[to..];
    }
    r
  }

  /** Where the element at position `i` after a move came from: the others shift by one towards `from`. */
  function MovedFrom(from: nat, to: nat, i: nat): nat
  {
    if i == to then from
    else if from < to && from <= i < to then i + 1
    else if to < from && to < i <= from then i - 1
    else i
  }

  /** The move, position by position: intervening entries shift by one, the rest stay put. */
  lemma ArrayMoveShifts<T>(s: seq<T>, from: nat, to: nat, i: nat)
    requires from < |s| && to < |s| && i < |s|
    ensures MovedFrom(from, to, i) < |s|
    ensures ArrayMove(s, from, to)[i] == s[MovedFrom(from, to, i)]
  {
    var r := ArrayMove(s, from, to);
    var rest := RemoveAt(s, from);
    if i != to {
      var j := if i < to then i else i - 1;
      assert r[i] == RemoveAt(r, to)[j];
      assert rest[j] == if j < from then s[j] else s[j + 1];
    }
  }

  /** A move is a permutation of the list. */
  lemma ArrayMovePermutes<T>(s: seq<T>, from: nat, to: nat)
    requires from < |s| && to < |s|
    ensures multiset(ArrayMove(s, from, to)) == multiset(s)
  {
    var r := ArrayMove(s, from, to);
    assert s == s[..from] + [s[from]] + s[from + 1..];
    assert r == r[..to] + [r[to]] + r[to + 1..];
    assert multiset(r) == multiset(RemoveAt(r, to)) + multiset{s[from]};
  }

  /** Moving back undoes a move. */
  lemma ArrayMoveRoundTrip<T>(s: seq<T>, from: nat, to: nat)
    requires from < |s| && to < |s|
    ensures ArrayMove(ArrayMove(s, from, to), to, from) == s
  {
  }

  /** Dragging A onto C in [A, B, C] gives [B, C, A]. */
  lemma ArrayMoveExample<T>(a: T, b: T, c: T)
    ensures ArrayMove([a, b, c], 0, 2) == [b, c, a]
  {
  }
}
