/**
 Looking a city up for the saved-cities page (app/ciudades/page.tsx): trimming the
 query, shaping the weather service's answer into a `CityWeather`, and resolving the
 default cities at boot. The request itself is not modelled: the service's answer
 comes in as a `Response`.
 */
module CityLookup {
  import opened Wrappers
  import opened Seqs
  import opened Cities

  // ---------------------------------------------------------------------------
  // `String.prototype.trim`
  // ---------------------------------------------------------------------------

  /** JavaScript's white space and line terminators. */
  const JsSpaces: set<char> := {
    ' ', '\t', '\n', '\r', '\U{000B}', '\U{000C}', '\U{00A0}', '\U{1680}',
    '\U{2000}', '\U{2001}', '\U{2002}', '\U{2003}', '\U{2004}', '\U{2005}',
    '\U{2006}', '\U{2007}', '\U{2008}', '\U{2009}', '\U{200A}',
    '\U{2028}', '\U{2029}', '\U{202F}', '\U{205F}', '\U{3000}', '\U{FEFF}'
  }

  predicate IsSpace(c: char)
  {
    c in JsSpaces
  }

  function TrimStart(s: string): (r: string)
    ensures |r| <= |s|
  {
    if s != [] && IsSpace(s[0]) then TrimStart(s[1..]) else s
  }

  function TrimEnd(s: string): (r: string)
    ensures |r| <= |s|
  {
    if s != [] && IsSpace(s[|s| - 1]) then TrimEnd(s[..|s| - 1]) else s
  }

  /** `s.trim()`. */
  function Trim(s: string): (r: string)
    ensures |r| <= |s|
  {
    TrimEnd(TrimStart(s))
  }

  /** Trimming the start leaves a suffix that does not begin with white space. */
  lemma {:induction false} TrimStartSuffix(s: string)
    ensures var r := TrimStart(s); |r| <= |s| && r == s[|s| - |r|..] && (r == [] || !IsSpace(r[0]))
  {
    if s != [] && IsSpace(s[0]) {
      var tail := s[1..];
      TrimStartSuffix(tail);
      assert tail[|tail| - |TrimStart(tail)|..] == s[|s| - |TrimStart(tail)|..];
    }
  }

  /** What trimming the start cuts off is white space. */
  lemma {:induction false} TrimStartCutsSpace(s: string)
    ensures forall k :: 0 <= k < |s| - |TrimStart(s)| ==> IsSpace(s[k])
  {
    if s != [] && IsSpace(s[0]) {
      var tail := s[1..];
      TrimStartCutsSpace(tail);
      forall k | 1 <= k < |s| - |TrimStart(tail)| ensures IsSpace(s[k]) {
        assert s[k] == tail[k - 1];
      }
    }
  }

  /** Trimming the end leaves a prefix that does not end with white space. */
  lemma {:induction false} TrimEndPrefix(s: string)
    ensures var r := TrimEnd(s); |r| <= |s| && r == s[..|r|] && (r == [] || !IsSpace(r[|r| - 1]))
  {
    if s != [] && IsSpace(s[|s| - 1]) {
      var init := s[..|s| - 1];
      TrimEndPrefix(init);
      assert init[..|TrimEnd(init)|] == s[..|TrimEnd(init)|];
    }
  }

  /** What trimming the end cuts off is white space. */
  lemma {:induction false} TrimEndCutsSpace(s: string)
    ensures forall k :: |TrimEnd(s)| <= k < |s| ==> IsSpace(s[k])
  {
    if s != [] && IsSpace(s[|s| - 1]) {
      var init := s[..|s| - 1];
      TrimEndCutsSpace(init);
      forall k | |TrimEnd(init)| <= k < |s| - 1 ensures IsSpace(s[k]) {
        assert s[k] == init[k];
      }
    }
  }

  /** The trimmed text is a slice of `s` that neither begins nor ends with white space. */
  lemma TrimIsSlice(s: string)
    ensures var r := Trim(s); var i := |s| - |TrimStart(s)|;
      && i + |r| <= |s| && r == s[i..i + |r|]
      && (r == [] || (!IsSpace(r[0]) && !IsSpace(r[|r| - 1])))
  {
    var t := TrimStart(s);
    TrimStartSuffix(s);
    var r := TrimEnd(t);
    TrimEndPrefix(t);
    assert Trim(s) == r;
    var i := |s| - |t|;
    assert t == s[i..];
    assert r == t[..|r|];
    assert r == s[i..i + |r|];
    if r != [] {
      assert r[0] == t[0];
    }
  }

  /** Trimming cuts only white space, from either end of `s`. */
  lemma TrimCutsSpace(s: string)
    ensures var r := Trim(s); var i := |s| - |TrimStart(s)|;
      && (forall k :: 0 <= k < i ==> IsSpace(s[k]))
      && (forall k :: i + |r| <= k < |s| ==> IsSpace(s[k]))
  {
    var t := TrimStart(s);
    TrimStartSuffix(s);
    TrimStartCutsSpace(s);
    var r := TrimEnd(t);
    TrimEndCutsSpace(t);
    var i := |s| - |t|;
    assert t == s[i..];
    forall k | i + |r| <= k < |s| ensures IsSpace(s[k]) {
      assert s[k] == t[k - i];
    }
  }

  /** A query is blank exactly when it is made of white space only. */
  lemma BlankQueryIsAllSpace(s: string)
    ensures Trim(s) == [] <==> forall k :: 0 <= k < |s| ==> IsSpace(s[k])
  {
    TrimIsSlice(s);
    TrimCutsSpace(s);
    var r := Trim(s);
    var i := |s| - |TrimStart(s)|;
    if r != [] {
      assert r[0] == s[i];
    }
  }

  // ---------------------------------------------------------------------------
  // The entry id `${data.id}-${Date.now()}`
  // ---------------------------------------------------------------------------

  function DigitChar(d: nat): (c: char)
    requires d < 10
    ensures '0' <= c <= '9'
  {
    ('0' as int + d) as char
  }

  /** The decimal text of a natural number. */
  function NatToString(n: nat): (r: string)
    ensures r != [] && IsDigits(r)
  {
    if n < 10 then [DigitChar(n)] else NatToString(n / 10) + [DigitChar(n % 10)]
  }

  predicate IsDigits(s: string)
  {
    forall k :: 0 <= k < |s| ==> '0' <= s[k] <= '9'
  }

  /** The number a string of decimal digits denotes. */
  function ParseNat(s: string): nat
    requires IsDigits(s)
  {
    if s == [] then 0 else ParseNat(s[..|s| - 1]) * 10 + (s[|s| - 1] as int - '0' as int)
  }

  /** Reading the decimal text back gives the number. */
  lemma {:induction false} ParseNatToString(n: nat)
    ensures ParseNat(NatToString(n)) == n
  {
    var s := NatToString(n);
    if n >= 10 {
      assert s[..|s| - 1] == NatToString(n / 10);
      ParseNatToString(n / 10);
    } else {
      assert s[..0] == [];
    }
  }

  /** `${data.id}-${Date.now()}`: the record number's digits, a dash, the clock reading's digits. */
  function EntryId(recordId: nat, now: nat): (r: string)
    ensures var n := |NatToString(recordId)|;
      && n < |r| && r[n] == '-'
      && IsDigits(r[..n]) && r[..n] != []
      && IsDigits(r[n + 1..]) && r[n + 1..] != []
  {
    NatToString(recordId) + "-" + NatToString(now)
  }

  /** The position of the first '-' in `s`, or `|s|`. */
  function DashIndex(s: string): (i: nat)
    ensures i <= |s|
  {
    if s == [] then 0 else if s[0] == '-' then 0 else 1 + DashIndex(s[1..])
  }

  lemma {:induction false} DashIndexAfterDigits(a: string, rest: string)
    requires IsDigits(a)
    ensures DashIndex(a + "-" + rest) == |a|
  {
    if a != [] {
      assert (a + "-" + rest)[1..] == a[1..] + "-" + rest;
      DashIndexAfterDigits(a[1..], rest);
    }
  }

  /** The service's record number and the clock reading of an id, read back from its text. */
  function ParseEntryId(id: string): (nat, nat)
  {
    var i := DashIndex(id);
    var head := id[..i];
    var tail := if i < |id| then id[i + 1..] else "";
    (if IsDigits(head) then ParseNat(head) else 0, if IsDigits(tail) then ParseNat(tail) else 0)
  }

  /** An id gives back the record number and the clock reading it was built from, so ids made at different times differ. */
  lemma EntryIdRoundTrip(recordId: nat, now: nat)
    ensures ParseEntryId(EntryId(recordId, now)) == (recordId, now)
  {
    var a, b := NatToString(recordId), NatToString(now);
    var id := EntryId(recordId, now);
    DashIndexAfterDigits(a, b);
    assert id[..|a|] == a && id[|a| + 1..] == b;
    ParseNatToString(recordId);
    ParseNatToString(now);
  }

  // ---------------------------------------------------------------------------
  // `fetchCityWeather`
  // ---------------------------------------------------------------------------

  /** One entry of the answer's `weather` array; each field may be missing. */
  datatype Condition = Condition(icon: Option<string>, description: Option<string>)

  /** The fields of a current-weather answer that the page reads. */
  datatype CityData = CityData(
    id: nat, name: string, country: string, temp: real, weather: Option<seq<Condition>>)

  /**
   What the service answers: a request that fails or an answer that cannot be read
   (both end in the `catch`), a non-2xx status, or a readable answer.
   */
  datatype Response = Failed | NotOk | Ok(data: CityData)

  const DefaultIcon := "01d"
  const DefaultDescription := "despejado"

  /** `data.weather?.[0]`. */
  function FirstCondition(data: CityData): Option<Condition>
  {
    if data.weather.Some? && data.weather.value != [] then Some(data.weather.value[0]) else None
  }

  /** The entry built from a readable answer. */
  function ShapeCity(data: CityData, now: nat): (c: CityWeather)
    ensures c.id == EntryId(data.id, now)
    ensures c.name == data.name + ", " + data.country && c.temp == data.temp
    ensures c.icon == match FirstCondition(data)
      case Some(Condition(Some(icon), _)) => icon
      case _ => DefaultIcon
    ensures c.description == match FirstCondition(data)
      case Some(Condition(_, Some(text))) => text
      case _ => DefaultDescription
  {
    var first := FirstCondition(data);
    var icon := if first.Some? && first.value.icon.Some? then first.value.icon.value else DefaultIcon;
    var text := if first.Some? && first.value.description.Some? then first.value.description.value else DefaultDescription;
    CityWeather(EntryId(data.id, now), data.name + ", " + data.country, data.temp, icon, text)
  }

  /** What a call of `fetchCityWeather` yields: the entry, if any, and the error it set, if any. */
  datatype Lookup = Lookup(city: Option<CityWeather>, error: Option<string>)

  /**
   `fetchCityWeather`: without an API key it sets the missing-key error and yields
   nothing; otherwise it yields an entry exactly when the service answered readably.
   */
  function FetchCityWeather(apiKey: string, response: Response, now: nat): (r: Lookup)
    ensures r.city.Some? <==> apiKey != "" && response.Ok?
    ensures r.city.Some? ==> r.city.value == ShapeCity(response.data, now)
    ensures r.error == if apiKey == "" then Some(MissingKeyMessage) else None
  {
    if apiKey == "" then Lookup(None, Some(MissingKeyMessage))
    else if response.Ok? then Lookup(Some(ShapeCity(response.data, now)), None)
    else Lookup(None, None)
  }

  /** The boot's fallback: `Promise.all` over the default names, then drop the nulls. */
  function ResolveDefaults(apiKey: string, lookup: string -> Response, now: nat): (r: seq<CityWeather>)
    ensures |r| <= |DefaultCityNames|
  {
    Somes(DefaultLookups(apiKey, lookup, now))
  }

  function DefaultLookups(apiKey: string, lookup: string -> Response, now: nat): seq<Option<CityWeather>>
  {
    MapSeq(DefaultCityNames, (name: string) => FetchCityWeather(apiKey, lookup(name), now).city)
  }

  /** The fallback entries one default name contributes: its shaped answer when it resolves, none otherwise. */
  function ResolvedAs(apiKey: string, lookup: string -> Response, now: nat, name: string): seq<CityWeather>
  {
    if apiKey != "" && lookup(name).Ok? then [ShapeCity(lookup(name).data, now)] else []
  }

  /**
   The fallback list is the defaults that resolved, in `DEFAULT_CITY_NAMES` order, with the
   failed ones dropped.
   */
  lemma ResolveDefaultsInOrder(apiKey: string, lookup: string -> Response, now: nat)
    ensures ResolveDefaults(apiKey, lookup, now) ==
      ResolvedAs(apiKey, lookup, now, DefaultCityNames[0]) + ResolvedAs(apiKey, lookup, now, DefaultCityNames[1])
      + ResolvedAs(apiKey, lookup, now, DefaultCityNames[2]) + ResolvedAs(apiKey, lookup, now, DefaultCityNames[3])
  {
    var results := DefaultLookups(apiKey, lookup, now);
    assert results == [results[0]] + [results[1]] + [results[2]] + [results[3]];
    SomesConcat([results[0]] + [results[1]] + [results[2]], [results[3]]);
    SomesConcat([results[0]] + [results[1]], [results[2]]);
    SomesConcat([results[0]], [results[1]]);
    forall j | 0 <= j < 4
      ensures Somes([results[j]]) == ResolvedAs(apiKey, lookup, now, DefaultCityNames[j])
    {
      SomesSingle(results[j]);
    }
  }

  /** Madrid failing and Barcelona, Bilbao and Málaga resolving gives exactly those three, in order. */
  lemma FirstDefaultFails(apiKey: string, lookup: string -> Response, now: nat)
    requires apiKey != ""
    requires !lookup(DefaultCityNames[0]).Ok?
    requires lookup(DefaultCityNames[1]).Ok? && lookup(DefaultCityNames[2]).Ok? && lookup(DefaultCityNames[3]).Ok?
    ensures ResolveDefaults(apiKey, lookup, now) == [
      ShapeCity(lookup(DefaultCityNames[1]).data, now),
      ShapeCity(lookup(DefaultCityNames[2]).data, now),
      ShapeCity(lookup(DefaultCityNames[3]).data, now)]
  {
    var b := ShapeCity(lookup(DefaultCityNames[1]).data, now);
    var c := ShapeCity(lookup(DefaultCityNames[2]).data, now);
    var d := ShapeCity(lookup(DefaultCityNames[3]).data, now);
    ResolveDefaultsInOrder(apiKey, lookup, now);
    assert ResolvedAs(apiKey, lookup, now, DefaultCityNames[0]) == [];
    assert ResolvedAs(apiKey, lookup, now, DefaultCityNames[1]) == [b];
    assert ResolvedAs(apiKey, lookup, now, DefaultCityNames[2]) == [c];
    assert ResolvedAs(apiKey, lookup, now, DefaultCityNames[3]) == [d];
    ThreeInOrder(b, c, d);
  }

  /** Three singleton lists after an empty one make the three-element list. */
  lemma ThreeInOrder(b: CityWeather, c: CityWeather, d: CityWeather)
    ensures [] + [b] + [c] + [d] == [b, c, d]
  {
  }

  /**
   Every entry of the fallback list is the shaped answer for some default name that
   resolved; without an API key the list is empty.
   */
  lemma DefaultsResolved(apiKey: string, lookup: string -> Response, now: nat, i: nat)
    requires i < |ResolveDefaults(apiKey, lookup, now)|
    ensures apiKey != ""
    ensures exists j :: (0 <= j < |DefaultCityNames| && lookup(DefaultCityNames[j]).Ok?
      && ResolveDefaults(apiKey, lookup, now)[i] == ShapeCity(lookup(DefaultCityNames[j]).data, now))
  {
    var results := DefaultLookups(apiKey, lookup, now);
    var c := ResolveDefaults(apiKey, lookup, now)[i];
    assert Some(c) in results;
    var j :| 0 <= j < |results| && results[j] == Some(c);
    assert results[j] == FetchCityWeather(apiKey, lookup(DefaultCityNames[j]), now).city;
  }

  /** When every default resolves, the list is the four defaults in `DEFAULT_CITY_NAMES` order. */
  lemma AllDefaultsResolve(apiKey: string, lookup: string -> Response, now: nat)
    requires apiKey != ""
    requires forall j :: 0 <= j < |DefaultCityNames| ==> lookup(DefaultCityNames[j]).Ok?
    ensures |ResolveDefaults(apiKey, lookup, now)| == |DefaultCityNames|
    ensures forall j :: 0 <= j < |DefaultCityNames| ==>
      ResolveDefaults(apiKey, lookup, now)[j] == ShapeCity(lookup(DefaultCityNames[j]).data, now)
  {
    SomesAllPresent(DefaultLookups(apiKey, lookup, now));
  }
}
