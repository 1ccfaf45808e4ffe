/**
 * The observation routes, mounted under `/api/v1/stations/:stationId/observations`: every
 * lookup and delete is scoped by the station id of the path as well as the observation id.
 */
module ObservationsController {
  import opened Http
  import opened StationModel
  import opened ObservationModel
  import opened Db

  /** `body` lists the `-__v -stationId` form of every observation of `sid`, once each. */
  ghost predicate ListsObservations(body: Json, observations: map<Id, Observation>, sid: Id)
  {
    exists order ::
      && Enumerates(order, ObservationsOf(observations, sid))
      && body == JArr(ObservationBodies(order, observations))
  }

  /** GET `/`: the station's observations. An unknown but well-formed station id gives an empty list. */
  method List(db: Store, validId: Id -> bool, sid: Id, findFails: bool) returns (r: Response)
    ensures !validId(sid) ==> r == Response(404, Message("Station not found!"))
    ensures validId(sid) && findFails ==> r == Response(500, Message("Internal server error on getting all observations."))
    ensures validId(sid) && !findFails ==> r.status == 200 && ListsObservations(r.body, db.observations, sid)
  {
    if !validId(sid) {
      return Response(404, Message("Station not found!"));
    }
    if findFails {
      return Response(500, Message("Internal server error on getting all observations."));
    }
    var ids := db.SelectObservationsOf(sid);
    r := Response(200, JArr(ObservationBodies(ids, db.observations)));
  }

  /** GET `/:obsId`: found only when the observation exists AND belongs to the station of the path. */
  method Find(db: Store, validId: Id -> bool, sid: Id, oid: Id, findFails: bool) returns (r: Response)
    ensures !validId(sid) ==> r == Response(404, Message("Station not found!"))
    ensures validId(sid) && !validId(oid) ==> r == Response(404, Message("Observation not found!"))
    ensures validId(sid) && validId(oid) && findFails ==>
              r == Response(500, Message("Internal server error on getting an observation."))
    ensures validId(sid) && validId(oid) && !findFails ==>
              if oid in db.observations && db.observations[oid].stationId == sid
              then r == Response(200, JObj(ObservationFields(oid, db.observations[oid])))
              else r == Response(404, Message("Observation not found."))
  {
    if !validId(sid) {
      return Response(404, Message("Station not found!"));
    }
    if !validId(oid) {
      return Response(404, Message("Observation not found!"));
    }
    if findFails {
      return Response(500, Message("Internal server error on getting an observation."));
    }
    var obs := db.FindObservation(sid, oid);
    if obs.None? {
      return Response(404, Message("Observation not found."));
    }
    r := Response(200, JObj(ObservationFields(oid, obs.value)));
  }

  /**
   * POST `/`: the station must exist; the body's `stationId` is overwritten with the path's.
   * Any failed save, validation or not, answers 400.
   */
  method Create(db: Store, validId: Id -> bool, sid: Id, body: seq<Member>, newId: Id,
                findErr: Option<DbError>, saveFails: bool)
    returns (reply: Reply)
    requires newId !in db.observations
    modifies db
    ensures db.stations == old(db.stations)
    ensures !validId(sid) ==> reply == Send(Response(404, Message("Station not found!")))
    ensures validId(sid) && findErr.Some? ==> reply == Next(findErr.value)
    ensures validId(sid) && findErr.None? && sid !in db.stations ==>
              reply == Send(Response(404, ErrorBody("Station not found")))
    ensures validId(sid) && findErr.None? && sid in db.stations ==>
              var checked := CheckObservation(Set(body, "stationId", JStr(sid)));
              if checked.Err? || saveFails
              then reply == Send(Response(400, Message("Bad request.")))
              else
                && checked.value.stationId == sid
                && reply == Send(Response(201, ObservationPublic(newId, checked.value)))
                && db.observations == old(db.observations)[newId := checked.value]
    ensures reply.Send? && reply.response.status != 201 ==> db.observations == old(db.observations)
    ensures reply.Next? ==> db.observations == old(db.observations)
    ensures old(db.Valid()) ==> db.Valid()
    ensures old(db.Consistent()) ==> db.Consistent()
  {
    if !validId(sid) {
      return Send(Response(404, Message("Station not found!")));
    }
    if findErr.Some? {
      return Next(findErr.value);
    }
    var station := db.FindStation(sid);
    if station.None? {
      return Send(Response(404, ErrorBody("Station not found")));
    }
    var myObsObj := Set(body, "stationId", JStr(sid));
    var checked := CheckObservation(myObsObj);
    if checked.Err? || saveFails {
      return Send(Response(400, Message("Bad request.")));
    }
    db.InsertObservation(newId, checked.value);
    reply := Send(Response(201, ObservationPublic(newId, checked.value)));
  }

  /** DELETE `/:obsId`: removes the observation only when it belongs to the station of the path. */
  method Remove(db: Store, validId: Id -> bool, sid: Id, oid: Id, deleteFails: bool) returns (r: Response)
    modifies db
    ensures db.stations == old(db.stations)
    ensures !validId(sid) ==> r == Response(404, Message("Station not found!"))
    ensures validId(sid) && !validId(oid) ==> r == Response(404, Message("Observation not found!"))
    ensures validId(sid) && validId(oid) && deleteFails ==>
              r == Response(500, Message("Internal server error on getting an observation."))
    ensures validId(sid) && validId(oid) && !deleteFails ==>
              if oid in old(db.observations) && old(db.observations)[oid].stationId == sid
              then
                && r == Response(200, JObj(ObservationFields(oid, old(db.observations)[oid])))
                && db.observations == old(db.observations) - {oid}
              else r == Response(404, Message("Observation not found."))
    ensures r.status != 200 ==> db.observations == old(db.observations)
    ensures old(db.Valid()) ==> db.Valid()
    ensures old(db.Consistent()) ==> db.Consistent()
  {
    if !validId(sid) {
      return Response(404, Message("Station not found!"));
    }
    if !validId(oid) {
      return Response(404, Message("Observation not found!"));
    }
    if deleteFails {
      return Response(500, Message("Internal server error on getting an observation."));
    }
    var obs := db.FindOneAndDeleteObservation(sid, oid);
    if obs.None? {
      return Response(404, Message("Observation not found."));
    }
    var obsObj := ObservationDoc(oid, obs.value);
    obsObj := Delete(obsObj, "__v");
    obsObj := Delete(obsObj, "stationId");
    DeleteVersionAndStationId(oid, obs.value);
    r := Response(200, JObj(obsObj));
  }

  /**
   * Whatever `stationId` the client sends, the created observation is the same: two bodies
   * that agree on every other field validate to the same observation.
   */
  lemma ClientStationIdIgnored(b1: seq<Member>, b2: seq<Member>, sid: Id)
    requires forall k :: k != "stationId" ==> Get(b1, k) == Get(b2, k)
    ensures CheckObservation(Set(b1, "stationId", JStr(sid))) == CheckObservation(Set(b2, "stationId", JStr(sid)))
  {
    var s1 := Set(b1, "stationId", JStr(sid));
    var s2 := Set(b2, "stationId", JStr(sid));
    assert forall k :: Get(s1, k) == Get(s2, k);
    CheckObservationReadsFields(s1, s2);
  }

  /**
   * The list holds the `-__v -stationId` form of each observation of the station once and
   * nothing else, so no entry shows its `stationId`.
   */
  lemma {:induction false} ListedObservations(body: Json, observations: map<Id, Observation>, sid: Id)
    requires ListsObservations(body, observations, sid)
    ensures body.JArr? && |body.items| == |ObservationsOf(observations, sid)|
    ensures forall k :: k in observations && observations[k].stationId == sid ==>
              JObj(ObservationFields(k, observations[k])) in body.items
    ensures forall x :: x in body.items ==>
              exists k :: k in ObservationsOf(observations, sid) && x == JObj(ObservationFields(k, observations[k]))
    ensures forall x :: x in body.items ==> x.JObj? && Get(x.members, "stationId") == None
  {
    var ids := ObservationsOf(observations, sid);
    var order :| Enumerates(order, ids) && body == JArr(ObservationBodies(order, observations));
    ObservationBodiesContents(order, observations, ids);
    forall x | x in body.items
      ensures x.JObj? && Get(x.members, "stationId") == None
    {
      var k :| k in ids && x == JObj(ObservationFields(k, observations[k]));
    }
  }

  /** Under referential consistency, the list for a station that does not exist is empty. */
  lemma {:induction false} UnknownStationListsNothing(body: Json, observations: map<Id, Observation>,
                                                      stations: map<Id, Station>, sid: Id)
    requires ListsObservations(body, observations, sid)
    requires forall id :: id in observations ==> observations[id].stationId in stations
    requires sid !in stations
    ensures body == JArr([])
  {
    var order :| Enumerates(order, ObservationsOf(observations, sid))
                 && body == JArr(ObservationBodies(order, observations));
    assert ObservationsOf(observations, sid) == {};
    EnumerationSize(order, ObservationsOf(observations, sid));
  }
}
