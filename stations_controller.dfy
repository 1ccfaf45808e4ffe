/**
 * The station routes: list (with an optional `description` filter), get by id with the
 * ids of the station's observations, create, and delete with the cascade over the
 * station's observations.
 */
module StationsController {
  import opened Http
  import opened StationModel
  import opened ObservationModel
  import opened Db

  /** An entry of the station list: the `description _id` projection, never the coordinates. */
  function Summary(id: Id, s: Station): (j: Json)
    ensures j.JObj? && Keys(j.members) == ["_id", "description"]
    ensures Get(j.members, "_id") == Some(JStr(id)) && Get(j.members, "description") == Some(JStr(s.description))
  {
    JObj([Member("_id", JStr(id)), Member("description", JStr(s.description))])
  }

  /** The summaries of the stations `order` names, in that order. */
  function Summaries(order: seq<Id>, stations: map<Id, Station>): (items: seq<Json>)
    requires forall id :: id in order ==> id in stations
    ensures |items| == |order|
  {
    seq(|order|, i requires 0 <= i < |order| => Summary(order[i], stations[order[i]]))
  }

  /** `body` lists every station the filter selects, once each, as its summary. */
  ghost predicate ListsStations(body: Json, stations: map<Id, Station>, description: Option<string>)
  {
    exists order ::
      && Enumerates(order, MatchingStations(stations, description))
      && body == JArr(Summaries(order, stations))
  }

  /** `body` is the station's fields followed by the ids of exactly its observations. */
  ghost predicate StationWithObservationIds(body: Json, id: Id, s: Station, observations: map<Id, Observation>)
  {
    exists order ::
      && Enumerates(order, ObservationsOf(observations, id))
      && body == JObj(StationFields(id, s) + [Member("observations", JArr(IdList(order)))])
  }

  /** `body` is the station's fields followed by the full bodies of exactly its observations. */
  ghost predicate StationWithObservationBodies(body: Json, id: Id, s: Station, observations: map<Id, Observation>)
  {
    exists order ::
      && Enumerates(order, ObservationsOf(observations, id))
      && body == JObj(StationFields(id, s) + [Member("observations", JArr(ObservationBodies(order, observations)))])
  }

  /** The object carries the station's `_id`, description and coordinates. */
  predicate StationValues(ms: seq<Member>, id: Id, s: Station)
  {
    && Get(ms, "_id") == Some(JStr(id)) && Get(ms, "description") == Some(JStr(s.description))
    && Get(ms, "lat") == Some(JNum(s.lat)) && Get(ms, "lon") == Some(JNum(s.lon))
  }

  /** GET `/`: every station, or those whose description equals the filter. */
  method List(db: Store, description: Option<string>, findErr: Option<DbError>) returns (reply: Reply)
    ensures findErr.Some? ==> reply == Next(findErr.value)
    ensures findErr.None? ==> reply.Send? && reply.response.status == 200
                              && ListsStations(reply.response.body, db.stations, description)
  {
    if findErr.Some? {
      return Next(findErr.value);
    }
    var ids := db.SelectStations(description);
    reply := Send(Response(200, JArr(Summaries(ids, db.stations))));
  }

  /** GET `/:id`: the station with the ids of its observations joined in. */
  method Find(db: Store, validId: Id -> bool, id: Id, findErr: Option<DbError>, obsErr: Option<DbError>)
    returns (reply: Reply)
    ensures !validId(id) ==> reply == Send(Response(404, ErrorBody("Station not found!")))
    ensures validId(id) && findErr.Some? ==> reply == Next(findErr.value)
    ensures validId(id) && findErr.None? && id !in db.stations ==>
              reply == Send(Response(404, ErrorBody("Station not found")))
    ensures validId(id) && findErr.None? && id in db.stations && obsErr.Some? ==>
              reply == Send(Response(500, Message("Internal server error on getting observations to a station.")))
    ensures validId(id) && findErr.None? && id in db.stations && obsErr.None? ==>
              && reply.Send? && reply.response.status == 200
              && StationWithObservationIds(reply.response.body, id, db.stations[id], db.observations)
  {
    if !validId(id) {
      return Send(Response(404, ErrorBody("Station not found!")));
    }
    if findErr.Some? {
      return Next(findErr.value);
    }
    var station := db.FindStation(id);
    if station.None? {
      return Send(Response(404, ErrorBody("Station not found")));
    }
    var stationObj := StationFields(id, station.value);
    if obsErr.Some? {
      return Send(Response(500, Message("Internal server error on getting observations to a station.")));
    }
    var ids := db.SelectObservationsOf(id);
    var observations: seq<Json> := [];
    var i := 0;
    while i < |ids|
      invariant 0 <= i <= |ids|
      invariant |observations| == i
      invariant forall j :: 0 <= j < i ==> observations[j] == JStr(ids[j])
    {
      observations := observations + [JStr(ids[i])];
      i := i + 1;
    }
    assert observations == IdList(ids);
    SetAppends(stationObj, "observations", JArr(observations));
    stationObj := Set(stationObj, "observations", JArr(observations));
    reply := Send(Response(200, JObj(stationObj)));
  }

  /**
   * POST `/`: 400 only when the body breaks the schema; otherwise 201 with the public form,
   * and the station is stored unless the save failed for another reason.
   */
  method Create(db: Store, body: seq<Member>, newId: Id, saveFails: bool) returns (r: Response)
    requires newId !in db.stations
    modifies db
    ensures CheckStation(body).Err? ==>
              && r == Response(400, ErrorBody("Incorrect format of request body"))
              && db.stations == old(db.stations)
    ensures CheckStation(body).Ok? ==> r == Response(201, StationPublic(newId, CheckStation(body).value))
    ensures CheckStation(body).Ok? && !saveFails ==> db.stations == old(db.stations)[newId := CheckStation(body).value]
    ensures CheckStation(body).Ok? && saveFails ==> db.stations == old(db.stations)
    ensures db.observations == old(db.observations)
    ensures old(db.Valid()) ==> db.Valid()
    ensures old(db.Consistent()) ==> db.Consistent()
  {
    var checked := CheckStation(body);
    if checked.Err? {
      return Response(400, ErrorBody("Incorrect format of request body"));
    }
    if !saveFails {
      db.InsertStation(newId, checked.value);
    }
    r := Response(201, StationPublic(newId, checked.value));
  }

  /**
   * DELETE `/:id`, in the code's order: delete the station, read its observations, delete
   * them. A failure after the first step answers 500 with the station already gone.
   */
  method Remove(db: Store, validId: Id -> bool, id: Id, lookupFails: bool, findFails: bool, deleteManyFails: bool)
    returns (r: Response)
    modifies db
    ensures !validId(id) || lookupFails || id !in old(db.stations) ==>
              && r == Response(404, ErrorBody("Station not found!"))
              && db.stations == old(db.stations) && db.observations == old(db.observations)
    ensures validId(id) && !lookupFails && id in old(db.stations) ==>
              && db.stations == old(db.stations) - {id}
              && (findFails ==>
                    && r == Response(500, Message("Internal server error on getting observations to a station."))
                    && db.observations == old(db.observations))
              && (!findFails && deleteManyFails ==>
                    && r == Response(500, Message("Internal server error on delete stations."))
                    && db.observations == old(db.observations))
              && (!findFails && !deleteManyFails ==>
                    && r.status == 200
                    && StationWithObservationBodies(r.body, id, old(db.stations)[id], old(db.observations))
                    && db.observations == WithoutObservationsOf(old(db.observations), id))
    ensures old(db.Valid()) ==> db.Valid()
    ensures old(db.Consistent()) && r.status != 500 ==> db.Consistent()
  {
    if !validId(id) || lookupFails {
      return Response(404, ErrorBody("Station not found!"));
    }
    var station := db.FindOneAndDeleteStation(id);
    if station.None? {
      return Response(404, ErrorBody("Station not found!"));
    }
    if findFails {
      return Response(500, Message("Internal server error on getting observations to a station."));
    }
    var body := CascadeBody(db, id, station.value);
    if deleteManyFails {
      return Response(500, Message("Internal server error on delete stations."));
    }
    db.DeleteObservationsOf(id);
    r := Response(200, body);
  }

  /**
   * The body of a successful DELETE `/:id`, built before the observations are deleted: the
   * stored station without `__v`, with the `-__v -stationId` form of each of its observations
   * pushed onto `observations`.
   */
  method CascadeBody(db: Store, id: Id, s: Station) returns (body: Json)
    ensures StationWithObservationBodies(body, id, s, db.observations)
  {
    var stationObj := Delete(StationDoc(id, s), "__v");
    DeleteVersionOfStation(id, s);
    var ids := db.SelectObservationsOf(id);
    var observations: seq<Json> := [];
    var i := 0;
    while i < |ids|
      invariant 0 <= i <= |ids|
      invariant |observations| == i
      invariant forall j :: 0 <= j < i ==> observations[j] == JObj(ObservationFields(ids[j], db.observations[ids[j]]))
    {
      observations := observations + [JObj(ObservationFields(ids[i], db.observations[ids[i]]))];
      i := i + 1;
    }
    assert observations == ObservationBodies(ids, db.observations);
    SetAppends(stationObj, "observations", JArr(observations));
    stationObj := Set(stationObj, "observations", JArr(observations));
    body := JObj(stationObj);
  }

  /** The station's fields followed by `observations`: five keys, the station's values, and the array last. */
  lemma StationThenObservations(id: Id, s: Station, observations: Json)
    ensures var ms := StationFields(id, s) + [Member("observations", observations)];
            && Keys(ms) == ["_id", "description", "lat", "lon", "observations"]
            && StationValues(ms, id, s) && ms[4].value == observations
  {
    var ms := [Member("_id", JStr(id)), Member("description", JStr(s.description)),
               Member("lat", JNum(s.lat)), Member("lon", JNum(s.lon)), Member("observations", observations)];
    assert StationFields(id, s) + [Member("observations", observations)] == ms;
    assert Keys(ms) == ["_id", "description", "lat", "lon", "observations"];
    GetMember(ms, 0); GetMember(ms, 1); GetMember(ms, 2); GetMember(ms, 3);
  }

  /**
   * A successful GET `/:id` answers exactly five fields, and its `observations` array holds
   * one id string for each observation of that station and nothing else.
   */
  lemma {:induction false} JoinedIds(body: Json, id: Id, s: Station, observations: map<Id, Observation>)
    requires StationWithObservationIds(body, id, s, observations)
    ensures body.JObj? && Keys(body.members) == ["_id", "description", "lat", "lon", "observations"]
    ensures StationValues(body.members, id, s)
    ensures body.members[4].value.JArr?
    ensures |body.members[4].value.items| == |ObservationsOf(observations, id)|
    ensures forall k :: JStr(k) in body.members[4].value.items <==> k in observations && observations[k].stationId == id
  {
    var order :| Enumerates(order, ObservationsOf(observations, id))
                 && body == JObj(StationFields(id, s) + [Member("observations", JArr(IdList(order)))]);
    IdListContents(order, ObservationsOf(observations, id));
    StationThenObservations(id, s, JArr(IdList(order)));
  }

  /**
   * A successful DELETE `/:id` answers exactly five fields, and its `observations` array
   * holds the full body of each observation the cascade removed, once each.
   */
  lemma {:induction false} CascadedBodies(body: Json, id: Id, s: Station, observations: map<Id, Observation>)
    requires StationWithObservationBodies(body, id, s, observations)
    ensures body.JObj? && Keys(body.members) == ["_id", "description", "lat", "lon", "observations"]
    ensures StationValues(body.members, id, s)
    ensures body.members[4].value.JArr?
    ensures |body.members[4].value.items| == |ObservationsOf(observations, id)|
    ensures forall k :: k in observations && observations[k].stationId == id ==>
              JObj(ObservationFields(k, observations[k])) in body.members[4].value.items
    ensures forall x :: x in body.members[4].value.items ==>
              exists k :: k in ObservationsOf(observations, id) && x == JObj(ObservationFields(k, observations[k]))
  {
    var order :| Enumerates(order, ObservationsOf(observations, id))
                 && body == JObj(StationFields(id, s) + [Member("observations", JArr(ObservationBodies(order, observations)))]);
    ObservationBodiesContents(order, observations, ObservationsOf(observations, id));
    StationThenObservations(id, s, JArr(ObservationBodies(order, observations)));
  }

  /** The summaries of an enumeration hold the summary of each member of the set, and nothing else. */
  lemma {:induction false} SummariesContents(order: seq<Id>, stations: map<Id, Station>, ids: set<Id>)
    requires Enumerates(order, ids) && ids <= stations.Keys
    ensures |Summaries(order, stations)| == |ids|
    ensures forall k :: k in ids ==> Summary(k, stations[k]) in Summaries(order, stations)
    ensures forall x :: x in Summaries(order, stations) ==> exists k :: k in ids && x == Summary(k, stations[k])
  {
    EnumerationSize(order, ids);
    var items := Summaries(order, stations);
    forall k | k in ids
      ensures Summary(k, stations[k]) in items
    {
      var j :| 0 <= j < |order| && order[j] == k;
      assert items[j] == Summary(k, stations[k]);
    }
    forall x | x in items
      ensures exists k :: k in ids && x == Summary(k, stations[k])
    {
      var j :| 0 <= j < |items| && items[j] == x;
      assert order[j] in ids;
    }
  }

  /**
   * The list holds the summary of each selected station once and nothing else: each entry
   * has exactly `_id` and `description`, and with a filter every entry has that description.
   */
  lemma {:induction false} ListedStations(body: Json, stations: map<Id, Station>, description: Option<string>)
    requires ListsStations(body, stations, description)
    ensures body.JArr? && |body.items| == |MatchingStations(stations, description)|
    ensures description.None? ==> |body.items| == |stations|
    ensures forall k :: k in MatchingStations(stations, description) ==> Summary(k, stations[k]) in body.items
    ensures forall x :: x in body.items ==>
              exists k :: k in MatchingStations(stations, description) && x == Summary(k, stations[k])
    ensures forall x :: x in body.items ==> x.JObj? && Keys(x.members) == ["_id", "description"]
    ensures description.Some? ==> forall x :: x in body.items ==> Get(x.members, "description") == Some(JStr(description.value))
  {
    var ids := MatchingStations(stations, description);
    var order :| Enumerates(order, ids) && body == JArr(Summaries(order, stations));
    SummariesContents(order, stations, ids);
    forall x | x in body.items
      ensures x.JObj? && Keys(x.members) == ["_id", "description"]
      ensures description.Some? ==> Get(x.members, "description") == Some(JStr(description.value))
    {
      var k :| k in ids && x == Summary(k, stations[k]);
    }
  }
}
