/** The observation schema: its field rules, its stored document and its two response forms. */
module ObservationModel {
  import opened Http
  import opened Schema

  const MinHum: real := 0.0
  const MaxHum: real := 100.0
  const MinPrec: real := 0.0

  datatype Observation = Observation(
    temp: real, windSpeed: real, windDir: string, hum: real, prec: real, stationId: Id)

  /** An observation the schema accepts. */
  predicate ValidObservation(o: Observation)
  {
    o.windDir != "" && MinHum <= o.hum <= MaxHum && MinPrec <= o.prec && o.stationId != ""
  }

  /** Every rule the body breaks, in the schema's field order. */
  function ObservationErrors(body: seq<Member>): seq<FieldError>
  {
    RequiredNumber("temp", GetNumber(body, "temp"), None, None)
    + RequiredNumber("windSpeed", GetNumber(body, "windSpeed"), None, None)
    + RequiredString("windDir", GetString(body, "windDir"))
    + RequiredNumber("hum", GetNumber(body, "hum"), Some(MinHum), Some(MaxHum))
    + RequiredNumber("prec", GetNumber(body, "prec"), Some(MinPrec), None)
    + RequiredString("stationId", GetString(body, "stationId"))
  }

  /**
   * `new Observation(body)` followed by validation: the observation the body describes,
   * or the list of rules it breaks.
   */
  function CheckObservation(body: seq<Member>): (r: Result<Observation, seq<FieldError>>)
    ensures r.Ok? <==>
      && GetNumber(body, "temp").Some? && GetNumber(body, "windSpeed").Some?
      && GetString(body, "windDir").Some? && GetString(body, "windDir").value != ""
      && GetNumber(body, "hum").Some? && MinHum <= GetNumber(body, "hum").value <= MaxHum
      && GetNumber(body, "prec").Some? && MinPrec <= GetNumber(body, "prec").value
      && GetString(body, "stationId").Some? && GetString(body, "stationId").value != ""
    ensures r.Ok? ==> ValidObservation(r.value)
    ensures r.Ok? ==>
      && Get(body, "temp") == Some(JNum(r.value.temp))
      && Get(body, "windSpeed") == Some(JNum(r.value.windSpeed))
      && Get(body, "windDir") == Some(JStr(r.value.windDir))
      && Get(body, "hum") == Some(JNum(r.value.hum))
      && Get(body, "prec") == Some(JNum(r.value.prec))
      && Get(body, "stationId") == Some(JStr(r.value.stationId))
    ensures r.Err? ==>
      && r.error != []
      && forall e :: e in r.error ==> e.path in ["temp", "windSpeed", "windDir", "hum", "prec", "stationId"]
  {
    var errs := ObservationErrors(body);
    var e1 := RequiredNumber("temp", GetNumber(body, "temp"), None, None);
    var e2 := RequiredNumber("windSpeed", GetNumber(body, "windSpeed"), None, None);
    var e3 := RequiredString("windDir", GetString(body, "windDir"));
    var e4 := RequiredNumber("hum", GetNumber(body, "hum"), Some(MinHum), Some(MaxHum));
    var e5 := RequiredNumber("prec", GetNumber(body, "prec"), Some(MinPrec), None);
    var e6 := RequiredString("stationId", GetString(body, "stationId"));
    assert errs == e1 + e2 + e3 + e4 + e5 + e6;
    assert |errs| == |e1| + |e2| + |e3| + |e4| + |e5| + |e6|;
    if errs == [] then
      Ok(Observation(GetNumber(body, "temp").value, GetNumber(body, "windSpeed").value,
                     GetString(body, "windDir").value, GetNumber(body, "hum").value,
                     GetNumber(body, "prec").value, GetString(body, "stationId").value))
    else
      Err(errs)
  }

  /** Validation reads nothing but the six schema fields of the body. */
  lemma CheckObservationReadsFields(b1: seq<Member>, b2: seq<Member>)
    requires forall k :: k in ["temp", "windSpeed", "windDir", "hum", "prec", "stationId"] ==> Get(b1, k) == Get(b2, k)
    ensures CheckObservation(b1) == CheckObservation(b2)
  {
    assert GetNumber(b1, "temp") == GetNumber(b2, "temp");
    assert GetNumber(b1, "windSpeed") == GetNumber(b2, "windSpeed");
    assert GetString(b1, "windDir") == GetString(b2, "windDir");
    assert GetNumber(b1, "hum") == GetNumber(b2, "hum");
    assert GetNumber(b1, "prec") == GetNumber(b2, "prec");
    assert GetString(b1, "stationId") == GetString(b2, "stationId");
    assert ObservationErrors(b1) == ObservationErrors(b2);
  }

  /** The errors of the whole body are those of its six fields' rules taken together. */
  lemma ObservationErrorsAreFieldErrors(body: seq<Member>, x: FieldError)
    ensures x in ObservationErrors(body) <==>
      || x in RequiredNumber("temp", GetNumber(body, "temp"), None, None)
      || x in RequiredNumber("windSpeed", GetNumber(body, "windSpeed"), None, None)
      || x in RequiredString("windDir", GetString(body, "windDir"))
      || x in RequiredNumber("hum", GetNumber(body, "hum"), Some(MinHum), Some(MaxHum))
      || x in RequiredNumber("prec", GetNumber(body, "prec"), Some(MinPrec), None)
      || x in RequiredString("stationId", GetString(body, "stationId"))
  {
  }

  /** Humidity: missing, below 0.0 and above 100.0 each give their own error. */
  lemma HumidityErrors(body: seq<Member>)
    ensures Required("hum") in ObservationErrors(body) <==> GetNumber(body, "hum").None?
    ensures BelowMin("hum") in ObservationErrors(body) <==> GetNumber(body, "hum").Some? && GetNumber(body, "hum").value < MinHum
    ensures AboveMax("hum") in ObservationErrors(body) <==> GetNumber(body, "hum").Some? && MaxHum < GetNumber(body, "hum").value
  {
    ObservationErrorsAreFieldErrors(body, Required("hum"));
    ObservationErrorsAreFieldErrors(body, BelowMin("hum"));
    ObservationErrorsAreFieldErrors(body, AboveMax("hum"));
  }

  /** Precipitation: missing and below 0.0 each give their own error; it has no upper bound. */
  lemma PrecipitationErrors(body: seq<Member>)
    ensures Required("prec") in ObservationErrors(body) <==> GetNumber(body, "prec").None?
    ensures BelowMin("prec") in ObservationErrors(body) <==> GetNumber(body, "prec").Some? && GetNumber(body, "prec").value < MinPrec
    ensures AboveMax("prec") !in ObservationErrors(body)
  {
    ObservationErrorsAreFieldErrors(body, Required("prec"));
    ObservationErrorsAreFieldErrors(body, BelowMin("prec"));
    ObservationErrorsAreFieldErrors(body, AboveMax("prec"));
  }

  /** The other four fields are only required. */
  lemma ObservationRequiredErrors(body: seq<Member>)
    ensures Required("temp") in ObservationErrors(body) <==> GetNumber(body, "temp").None?
    ensures Required("windSpeed") in ObservationErrors(body) <==> GetNumber(body, "windSpeed").None?
    ensures Required("windDir") in ObservationErrors(body) <==>
              GetString(body, "windDir").None? || GetString(body, "windDir").value == ""
    ensures Required("stationId") in ObservationErrors(body) <==>
              GetString(body, "stationId").None? || GetString(body, "stationId").value == ""
  {
    ObservationErrorsAreFieldErrors(body, Required("temp"));
    ObservationErrorsAreFieldErrors(body, Required("windSpeed"));
    ObservationErrorsAreFieldErrors(body, Required("windDir"));
    ObservationErrorsAreFieldErrors(body, Required("stationId"));
  }

  /** The stored document without `stationId` and the version marker (the `-__v -stationId` projection). */
  function ObservationFields(id: Id, o: Observation): (ms: seq<Member>)
    ensures Keys(ms) == ["_id", "temp", "windSpeed", "windDir", "hum", "prec"]
    ensures Get(ms, "stationId") == None && Get(ms, "__v") == None
  {
    [Member("_id", JStr(id)), Member("temp", JNum(o.temp)), Member("windSpeed", JNum(o.windSpeed)),
     Member("windDir", JStr(o.windDir)), Member("hum", JNum(o.hum)), Member("prec", JNum(o.prec))]
  }

  /** Each field of the projection carries the observation's own value. */
  lemma ObservationFieldsValues(id: Id, o: Observation)
    ensures Get(ObservationFields(id, o), "_id") == Some(JStr(id))
    ensures Get(ObservationFields(id, o), "temp") == Some(JNum(o.temp))
    ensures Get(ObservationFields(id, o), "windSpeed") == Some(JNum(o.windSpeed))
    ensures Get(ObservationFields(id, o), "windDir") == Some(JStr(o.windDir))
    ensures Get(ObservationFields(id, o), "hum") == Some(JNum(o.hum))
    ensures Get(ObservationFields(id, o), "prec") == Some(JNum(o.prec))
  {
    var ms := ObservationFields(id, o);
    assert Distinct(Keys(ms));
    GetMember(ms, 0); GetMember(ms, 1); GetMember(ms, 2); GetMember(ms, 3); GetMember(ms, 4); GetMember(ms, 5);
  }

  /** The stored document, `stationId` and version marker included. */
  function ObservationDoc(id: Id, o: Observation): seq<Member>
  {
    ObservationFields(id, o) + [Member("stationId", JStr(o.stationId))] + [Member("__v", JNum(0.0))]
  }

  /**
   * `delete obsObj.__v; delete obsObj.stationId` on the stored document leaves exactly the
   * projected fields: the response never shows which station the observation belonged to.
   */
  lemma DeleteVersionAndStationId(id: Id, o: Observation)
    ensures Delete(Delete(ObservationDoc(id, o), "__v"), "stationId") == ObservationFields(id, o)
  {
    var fields := ObservationFields(id, o);
    var withStation := fields + [Member("stationId", JStr(o.stationId))];
    assert Keys(withStation) == Keys(fields) + ["stationId"];
    DeleteLast(withStation, "__v", JNum(0.0));
    DeleteLast(fields, "stationId", JStr(o.stationId));
  }

  /** `getPublic()`: the six public fields, never `stationId` nor the version marker. */
  function ObservationPublic(id: Id, o: Observation): (j: Json)
    ensures j.JObj? && Keys(j.members) == ["temp", "windSpeed", "windDir", "hum", "prec", "_id"]
    ensures Get(j.members, "stationId") == None && Get(j.members, "__v") == None
  {
    JObj([Member("temp", JNum(o.temp)), Member("windSpeed", JNum(o.windSpeed)),
          Member("windDir", JStr(o.windDir)), Member("hum", JNum(o.hum)),
          Member("prec", JNum(o.prec)), Member("_id", JStr(id))])
  }

  /** Each public field carries the observation's own value. */
  lemma ObservationPublicValues(id: Id, o: Observation)
    ensures Get(ObservationPublic(id, o).members, "_id") == Some(JStr(id))
    ensures Get(ObservationPublic(id, o).members, "temp") == Some(JNum(o.temp))
    ensures Get(ObservationPublic(id, o).members, "windSpeed") == Some(JNum(o.windSpeed))
    ensures Get(ObservationPublic(id, o).members, "windDir") == Some(JStr(o.windDir))
    ensures Get(ObservationPublic(id, o).members, "hum") == Some(JNum(o.hum))
    ensures Get(ObservationPublic(id, o).members, "prec") == Some(JNum(o.prec))
  {
    var ms := ObservationPublic(id, o).members;
    assert Distinct(Keys(ms));
    GetMember(ms, 0); GetMember(ms, 1); GetMember(ms, 2); GetMember(ms, 3); GetMember(ms, 4); GetMember(ms, 5);
  }

  /**
   * The public form of a valid observation, with its station put back the way the create
   * handler puts it, validates to the same observation.
   */
  lemma PublicRoundTrip(id: Id, o: Observation)
    requires ValidObservation(o)
    ensures CheckObservation(Set(ObservationPublic(id, o).members, "stationId", JStr(o.stationId))) == Ok(o)
  {
    ObservationPublicValues(id, o);
  }

  /** The humidity and precipitation boundaries: 100.0 and 0.0 pass, 100.1 and -0.01 fail. */
  lemma HumidityAndPrecipitationBounds(o: Observation)
    requires ValidObservation(o)
    ensures ValidObservation(o.(hum := 100.0)) && ValidObservation(o.(prec := 0.0))
    ensures !ValidObservation(o.(hum := 100.1)) && !ValidObservation(o.(prec := -0.01))
  {
  }
}
