/** The station schema: its field rules, its stored document and its public form. */
module StationModel {
  import opened Http
  import opened Schema

  const MinLat: real := -90.0
  const MaxLat: real := 90.0
  const MinLon: real := -180.0
  const MaxLon: real := 180.0

  datatype Station = Station(description: string, lat: real, lon: real)

  /** A station the schema accepts. */
  predicate ValidStation(s: Station)
  {
    s.description != "" && MinLat <= s.lat <= MaxLat && MinLon <= s.lon <= MaxLon
  }

  /** Every rule the body breaks, in the schema's field order. */
  function StationErrors(body: seq<Member>): seq<FieldError>
  {
    RequiredString("description", GetString(body, "description"))
    + RequiredNumber("lat", GetNumber(body, "lat"), Some(MinLat), Some(MaxLat))
    + RequiredNumber("lon", GetNumber(body, "lon"), Some(MinLon), Some(MaxLon))
  }

  /**
   * `new Station(body)` followed by validation: the station the body describes, or the
   * list of rules it breaks.
   */
  function CheckStation(body: seq<Member>): (r: Result<Station, seq<FieldError>>)
    ensures r.Ok? <==>
      && GetString(body, "description").Some? && GetString(body, "description").value != ""
      && GetNumber(body, "lat").Some? && MinLat <= GetNumber(body, "lat").value <= MaxLat
      && GetNumber(body, "lon").Some? && MinLon <= GetNumber(body, "lon").value <= MaxLon
    ensures r.Ok? ==> ValidStation(r.value)
    ensures r.Ok? ==>
      && Get(body, "description") == Some(JStr(r.value.description))
      && Get(body, "lat") == Some(JNum(r.value.lat))
      && Get(body, "lon") == Some(JNum(r.value.lon))
    ensures r.Err? ==> r.error != [] && forall e :: e in r.error ==> e.path in ["description", "lat", "lon"]
  {
    var errs := StationErrors(body);
    var e1 := RequiredString("description", GetString(body, "description"));
    var e2 := RequiredNumber("lat", GetNumber(body, "lat"), Some(MinLat), Some(MaxLat));
    var e3 := RequiredNumber("lon", GetNumber(body, "lon"), Some(MinLon), Some(MaxLon));
    assert errs == e1 + e2 + e3;
    assert |errs| == |e1| + |e2| + |e3|;
    if errs == [] then
      Ok(Station(GetString(body, "description").value, GetNumber(body, "lat").value, GetNumber(body, "lon").value))
    else
      Err(errs)
  }

  /** The errors of the whole body are those of its three fields' rules taken together. */
  lemma StationErrorsAreFieldErrors(body: seq<Member>, x: FieldError)
    ensures x in StationErrors(body) <==>
      || x in RequiredString("description", GetString(body, "description"))
      || x in RequiredNumber("lat", GetNumber(body, "lat"), Some(MinLat), Some(MaxLat))
      || x in RequiredNumber("lon", GetNumber(body, "lon"), Some(MinLon), Some(MaxLon))
  {
  }

  /** A description that is missing, not a string or empty gives the one `required` error. */
  lemma DescriptionErrors(body: seq<Member>)
    ensures Required("description") in StationErrors(body) <==>
              GetString(body, "description").None? || GetString(body, "description").value == ""
  {
    StationErrorsAreFieldErrors(body, Required("description"));
  }

  /** Latitude: missing, below -90.0 and above 90.0 each give their own error. */
  lemma LatitudeErrors(body: seq<Member>)
    ensures Required("lat") in StationErrors(body) <==> GetNumber(body, "lat").None?
    ensures BelowMin("lat") in StationErrors(body) <==> GetNumber(body, "lat").Some? && GetNumber(body, "lat").value < MinLat
    ensures AboveMax("lat") in StationErrors(body) <==> GetNumber(body, "lat").Some? && MaxLat < GetNumber(body, "lat").value
  {
    StationErrorsAreFieldErrors(body, Required("lat"));
    StationErrorsAreFieldErrors(body, BelowMin("lat"));
    StationErrorsAreFieldErrors(body, AboveMax("lat"));
  }

  /** Longitude: missing, below -180.0 and above 180.0 each give their own error. */
  lemma LongitudeErrors(body: seq<Member>)
    ensures Required("lon") in StationErrors(body) <==> GetNumber(body, "lon").None?
    ensures BelowMin("lon") in StationErrors(body) <==> GetNumber(body, "lon").Some? && GetNumber(body, "lon").value < MinLon
    ensures AboveMax("lon") in StationErrors(body) <==> GetNumber(body, "lon").Some? && MaxLon < GetNumber(body, "lon").value
  {
    StationErrorsAreFieldErrors(body, Required("lon"));
    StationErrorsAreFieldErrors(body, BelowMin("lon"));
    StationErrorsAreFieldErrors(body, AboveMax("lon"));
  }

  /** The stored document, version marker included. */
  function StationDoc(id: Id, s: Station): seq<Member>
  {
    StationFields(id, s) + [Member("__v", JNum(0.0))]
  }

  /** The stored document without its version marker (the `-__v` projection). */
  function StationFields(id: Id, s: Station): (ms: seq<Member>)
    ensures Keys(ms) == ["_id", "description", "lat", "lon"]
  {
    [Member("_id", JStr(id)), Member("description", JStr(s.description)),
     Member("lat", JNum(s.lat)), Member("lon", JNum(s.lon))]
  }

  /** Each field of the projection carries the station's own value. */
  lemma StationFieldsValues(id: Id, s: Station)
    ensures Get(StationFields(id, s), "_id") == Some(JStr(id))
    ensures Get(StationFields(id, s), "description") == Some(JStr(s.description))
    ensures Get(StationFields(id, s), "lat") == Some(JNum(s.lat)) && Get(StationFields(id, s), "lon") == Some(JNum(s.lon))
  {
    var ms := StationFields(id, s);
    assert Distinct(Keys(ms));
    GetMember(ms, 0); GetMember(ms, 1); GetMember(ms, 2); GetMember(ms, 3);
  }

  /** `delete stationObj.__v` on the stored document leaves exactly the projected fields. */
  lemma DeleteVersionOfStation(id: Id, s: Station)
    ensures Delete(StationDoc(id, s), "__v") == StationFields(id, s)
  {
    DeleteLast(StationFields(id, s), "__v", JNum(0.0));
  }

  /** `getPublic()`: the four public fields, with the station's own values. */
  function StationPublic(id: Id, s: Station): (j: Json)
    ensures j.JObj? && Keys(j.members) == ["description", "lat", "lon", "_id"]
    ensures Get(j.members, "_id") == Some(JStr(id))
    ensures Get(j.members, "description") == Some(JStr(s.description))
    ensures Get(j.members, "lat") == Some(JNum(s.lat)) && Get(j.members, "lon") == Some(JNum(s.lon))
    ensures Get(j.members, "__v") == None
  {
    var ms := [Member("description", JStr(s.description)), Member("lat", JNum(s.lat)),
               Member("lon", JNum(s.lon)), Member("_id", JStr(id))];
    assert Keys(ms) == ["description", "lat", "lon", "_id"];
    GetMember(ms, 0); GetMember(ms, 1); GetMember(ms, 2); GetMember(ms, 3);
    JObj(ms)
  }

  /** The public form of a valid station, posted back as a body, gives the same station. */
  lemma PublicRoundTrip(id: Id, s: Station)
    requires ValidStation(s)
    ensures CheckStation(StationPublic(id, s).members) == Ok(s)
  {
  }

  /** The boundaries of the coordinate ranges are inside them; the next values out are not. */
  lemma CoordinateBounds(d: string)
    requires d != ""
    ensures ValidStation(Station(d, MinLat, MaxLon)) && ValidStation(Station(d, MaxLat, MinLon))
    ensures !ValidStation(Station(d, 90.01, 0.0)) && !ValidStation(Station(d, 0.0, -180.01))
  {
  }
}
