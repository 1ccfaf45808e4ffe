/**
 * The application: the HMAC gate in front of the station delete route, the routers, and
 * the error handler every `next(err)` ends in. The HMAC function and the object-id check
 * are parameters, since their code lies outside this model.
 */
module App {
  import opened Http
  import opened Text
  import opened StationModel
  import opened ObservationModel
  import opened Db
  import opened Router
  import StationsController
  import ObservationsController

  /** The shared secret the gate keys its HMAC with. */
  const Secret: string := "mysecret"

  /** The token a request must carry: the HMAC of the upper-cased verb, a space and the lower-cased path. */
  function Token(hmac: (string, string) -> string, verb: string, path: string): string
  {
    hmac(Secret, Upper(verb) + " " + Lower(path))
  }

  /** The gate's own route, `app.delete("/api/v1/stations/:stationId")`: DELETE on exactly one station. */
  predicate GateApplies(verb: string, path: string)
  {
    var segs := Segments(path);
    verb == "DELETE" && |segs| == 4 && UnderStations(segs) && segs[3] != ""
  }

  datatype GateDecision = Forward | Reject(response: Response)

  /** The gate: a request it applies to goes on only with the exact token in `authorization`. */
  function Gate(hmac: (string, string) -> string, verb: string, path: string, authorization: Option<string>)
    : (d: GateDecision)
    ensures d.Forward? <==> !GateApplies(verb, path) || authorization == Some(Token(hmac, verb, path))
    ensures d.Reject? ==> d.response == Response(401, Message("Unauthorised"))
  {
    if !GateApplies(verb, path) then Forward
    else if authorization.Some? then
      if Token(hmac, verb, path) == authorization.value then Forward
      else Reject(Response(401, Message("Unauthorised")))
    else Reject(Response(401, Message("Unauthorised")))
  }

  /** The gate guards exactly the requests that reach the station delete handler. */
  lemma GateGuardsStationDelete(verb: string, path: string)
    ensures GateApplies(verb, path) <==> RouteOf(verb, path).DeleteStation?
  {
    var segs := Segments(path);
    if RouteOf(verb, path).DeleteStation? {
      assert segs[3..] == [RouteOf(verb, path).id];
    }
  }

  /** A missing header and a wrong one are answered alike. */
  lemma MissingAndWrongTokenAlike(hmac: (string, string) -> string, verb: string, path: string, t: string)
    requires GateApplies(verb, path) && t != Token(hmac, verb, path)
    ensures Gate(hmac, verb, path, None) == Gate(hmac, verb, path, Some(t))
    ensures Gate(hmac, verb, path, None) == Reject(Response(401, Message("Unauthorised")))
  {
  }

  /**
   * When the HMAC is injective in its message, a token computed for one station path does
   * not open another: the paths must agree up to letter case.
   */
  lemma {:induction false} TokenBindsPath(hmac: (string, string) -> string, verb: string, p1: string, p2: string)
    requires forall k, a, b :: hmac(k, a) == hmac(k, b) ==> a == b
    requires GateApplies(verb, p2)
    requires Lower(p1) != Lower(p2)
    ensures Gate(hmac, verb, p2, Some(Token(hmac, verb, p1))).Reject?
  {
    var prefix := Upper(verb) + " ";
    assert (prefix + Lower(p1))[|prefix|..] == Lower(p1);
    assert (prefix + Lower(p2))[|prefix|..] == Lower(p2);
  }

  /**
   * The gate compares lower-cased paths, so a token opens the lower- and the upper-case
   * spelling of its path alike.
   */
  lemma TokenIgnoresCase(hmac: (string, string) -> string, verb: string, path: string)
    ensures Gate(hmac, verb, Lower(path), Some(Token(hmac, verb, path))).Forward?
    ensures Gate(hmac, verb, Upper(path), Some(Token(hmac, verb, path))).Forward?
  {
    LowerForgetsCase(path);
  }

  /**
   * A client that signs `DELETE /api/v1/stations/<id>` for a lower-case id with the shared
   * secret is let through.
   */
  lemma SignedDeleteForwarded(hmac: (string, string) -> string, id: Id)
    requires forall i :: 0 <= i < |id| ==> !IsUpperLetter(id[i])
    ensures Gate(hmac, "DELETE", "/api/v1/stations/" + id, Some(hmac("mysecret", "DELETE /api/v1/stations/" + id))).Forward?
  {
    var path := "/api/v1/stations/" + id;
    assert forall i :: 0 <= i < |path| ==> !IsUpperLetter(path[i]) by {
      forall i | 0 <= i < |path| ensures !IsUpperLetter(path[i]) {
        if i >= 17 { assert path[i] == id[i - 17]; }
      }
    }
    UpperKeeps("DELETE");
    LowerKeeps(path);
    assert Upper("DELETE") + " " + Lower(path) == "DELETE /api/v1/stations/" + id;
  }

  /**
   * The error handler: status `err.status` when it is set (a JavaScript `||`, so 0 counts
   * as unset), else 500; the body carries the message, and the error's details only in
   * development mode.
   */
  function ErrorHandler(err: DbError, mode: string): (r: Response)
    ensures err.status.Some? && err.status.value != 0 ==> r.status == err.status.value
    ensures err.status.None? || err.status.value == 0 ==> r.status == 500
    ensures r.body.JObj? && Keys(r.body.members) == ["message", "error"]
    ensures Get(r.body.members, "message") == Some(JStr(err.message))
    ensures mode == "development" ==> Get(r.body.members, "error") == Some(err.details)
    ensures mode != "development" ==> Get(r.body.members, "error") == Some(JObj([]))
  {
    var errRes := [Member("message", JStr(err.message)), Member("error", JObj([]))];
    assert Keys(errRes) == ["message", "error"];
    var body := if mode == "development" then Set(errRes, "error", err.details) else errRes;
    GetMember(errRes, 0);
    GetMember(errRes, 1);
    Response(if err.status.Some? && err.status.value != 0 then err.status.value else 500, JObj(body))
  }

  /** What the client finally receives for a handler's reply. */
  function Resolve(reply: Reply, mode: string): (r: Response)
    ensures reply.Send? ==> r == reply.response
    ensures reply.Next? ==> r == ErrorHandler(reply.err, mode)
  {
    match reply
    case Send(response) => response
    case Next(err) => ErrorHandler(err, mode)
  }

  /** What the deployment fixes: the object-id check, the HMAC function, and the environment name. */
  datatype Config = Config(validId: Id -> bool, hmac: (string, string) -> string, mode: string)

  /** The parts of a request the handlers read. */
  datatype Request = Request(
    verb: string, path: string, authorization: Option<string>,
    description: Option<string>, body: seq<Member>)

  /**
   * Which store calls of the request fail, in the order the handler makes them; a handler
   * that passes an error on to `next` passes the first one.
   */
  datatype Faults = Faults(first: Option<DbError>, second: Option<DbError>, third: Option<DbError>)

  /**
   * What the station routes do, route by route: the response and the store afterwards
   * (`s1`, `o1`), given the store before the request (`s0`, `o0`).
   */
  ghost predicate StationOutcome(route: Route, cfg: Config, req: Request, faults: Faults, newId: Id,
                                 s0: map<Id, Station>, o0: map<Id, Observation>,
                                 s1: map<Id, Station>, o1: map<Id, Observation>, r: Response)
    requires route.ListStations? || route.GetStation? || route.CreateStation? || route.DeleteStation?
  {
    match route
    case ListStations =>
      && s1 == s0 && o1 == o0
      && if faults.first.Some? then r == ErrorHandler(faults.first.value, cfg.mode)
         else r.status == 200 && StationsController.ListsStations(r.body, s0, req.description)
    case GetStation(id) =>
      && s1 == s0 && o1 == o0
      && if !cfg.validId(id) then r == Response(404, ErrorBody("Station not found!"))
         else if faults.first.Some? then r == ErrorHandler(faults.first.value, cfg.mode)
         else if id !in s0 then r == Response(404, ErrorBody("Station not found"))
         else if faults.second.Some? then
           r == Response(500, Message("Internal server error on getting observations to a station."))
         else r.status == 200 && StationsController.StationWithObservationIds(r.body, id, s0[id], o0)
    case CreateStation =>
      && o1 == o0
      && var checked := CheckStation(req.body);
         if checked.Err? then r == Response(400, ErrorBody("Incorrect format of request body")) && s1 == s0
         else
           && r == Response(201, StationPublic(newId, checked.value))
           && s1 == if faults.first.Some? then s0 else s0[newId := checked.value]
    case DeleteStation(id) =>
      if !cfg.validId(id) || faults.first.Some? || id !in s0 then
        r == Response(404, ErrorBody("Station not found!")) && s1 == s0 && o1 == o0
      else
        && s1 == s0 - {id}
        && if faults.second.Some? then
             r == Response(500, Message("Internal server error on getting observations to a station.")) && o1 == o0
           else if faults.third.Some? then
             r == Response(500, Message("Internal server error on delete stations.")) && o1 == o0
           else
             && r.status == 200
             && StationsController.StationWithObservationBodies(r.body, id, s0[id], o0)
             && o1 == WithoutObservationsOf(o0, id)
  }

  /** What the observation routes do, route by route, in the same terms. */
  ghost predicate ObservationOutcome(route: Route, cfg: Config, req: Request, faults: Faults, newId: Id,
                                     s0: map<Id, Station>, o0: map<Id, Observation>,
                                     s1: map<Id, Station>, o1: map<Id, Observation>, r: Response)
    requires route.ListObservations? || route.GetObservation? || route.CreateObservation? || route.DeleteObservation?
  {
    && s1 == s0
    && match route
       case ListObservations(sid) =>
         && o1 == o0
         && if !cfg.validId(sid) then r == Response(404, Message("Station not found!"))
            else if faults.first.Some? then r == Response(500, Message("Internal server error on getting all observations."))
            else r.status == 200 && ObservationsController.ListsObservations(r.body, o0, sid)
       case GetObservation(sid, oid) =>
         && o1 == o0
         && if !cfg.validId(sid) then r == Response(404, Message("Station not found!"))
            else if !cfg.validId(oid) then r == Response(404, Message("Observation not found!"))
            else if faults.first.Some? then r == Response(500, Message("Internal server error on getting an observation."))
            else if oid in o0 && o0[oid].stationId == sid then r == Response(200, JObj(ObservationFields(oid, o0[oid])))
            else r == Response(404, Message("Observation not found."))
       case CreateObservation(sid) =>
         if !cfg.validId(sid) then r == Response(404, Message("Station not found!")) && o1 == o0
         else if faults.first.Some? then r == ErrorHandler(faults.first.value, cfg.mode) && o1 == o0
         else if sid !in s0 then r == Response(404, ErrorBody("Station not found")) && o1 == o0
         else
           var checked := CheckObservation(Set(req.body, "stationId", JStr(sid)));
           if checked.Err? || faults.second.Some? then r == Response(400, Message("Bad request.")) && o1 == o0
           else
             && checked.value.stationId == sid
             && r == Response(201, ObservationPublic(newId, checked.value))
             && o1 == o0[newId := checked.value]
       case DeleteObservation(sid, oid) =>
         if !cfg.validId(sid) then r == Response(404, Message("Station not found!")) && o1 == o0
         else if !cfg.validId(oid) then r == Response(404, Message("Observation not found!")) && o1 == o0
         else if faults.first.Some? then
           r == Response(500, Message("Internal server error on getting an observation.")) && o1 == o0
         else if oid in o0 && o0[oid].stationId == sid then
           r == Response(200, JObj(ObservationFields(oid, o0[oid]))) && o1 == o0 - {oid}
         else r == Response(404, Message("Observation not found.")) && o1 == o0
  }

  /** What a request that passed the gate does: its route's outcome, or an answer from the router itself. */
  ghost predicate Outcome(route: Route, cfg: Config, req: Request, faults: Faults, newId: Id,
                          s0: map<Id, Station>, o0: map<Id, Observation>,
                          s1: map<Id, Station>, o1: map<Id, Observation>, r: Response)
  {
    if route.NotSupported? then r == NotSupportedResponse() && s1 == s0 && o1 == o0
    else if route.Options? then r == OptionsResponse(route.allow) && s1 == s0 && o1 == o0
    else if route.ListStations? || route.GetStation? || route.CreateStation? || route.DeleteStation? then
      StationOutcome(route, cfg, req, faults, newId, s0, o0, s1, o1, r)
    else ObservationOutcome(route, cfg, req, faults, newId, s0, o0, s1, o1, r)
  }

  /**
   * One request through the whole application: the gate, then the route the method and
   * path reach, then the error handler for a `next(err)`.
   */
  method Handle(db: Store, cfg: Config, req: Request, faults: Faults, newId: Id) returns (r: Response)
    requires newId !in db.stations && newId !in db.observations
    modifies db
    ensures Gate(cfg.hmac, req.verb, req.path, req.authorization).Reject? ==>
              && r == Response(401, Message("Unauthorised"))
              && db.stations == old(db.stations) && db.observations == old(db.observations)
    ensures Gate(cfg.hmac, req.verb, req.path, req.authorization).Forward? ==>
              Outcome(RouteOf(req.verb, req.path), cfg, req, faults, newId,
                      old(db.stations), old(db.observations), db.stations, db.observations, r)
    ensures IsGet(req.verb) ==> db.stations == old(db.stations) && db.observations == old(db.observations)
    ensures old(db.Valid()) ==> db.Valid()
    ensures old(db.Consistent()) && !(RouteOf(req.verb, req.path).DeleteStation? && r.status == 500) ==> db.Consistent()
  {
    var decision := Gate(cfg.hmac, req.verb, req.path, req.authorization);
    if decision.Reject? {
      return decision.response;
    }
    var route := RouteOf(req.verb, req.path);
    if route.NotSupported? {
      r := NotSupportedResponse();
    } else if route.Options? {
      r := OptionsResponse(route.allow);
    } else if route.ListStations? || route.GetStation? || route.CreateStation? || route.DeleteStation? {
      r := StationRoutes(db, cfg, route, req, faults, newId);
    } else {
      r := ObservationRoutes(db, cfg, route, req, faults, newId);
    }
  }

  /** The stations router's own routes. */
  method StationRoutes(db: Store, cfg: Config, route: Route, req: Request, faults: Faults, newId: Id) returns (r: Response)
    requires route.ListStations? || route.GetStation? || route.CreateStation? || route.DeleteStation?
    requires newId !in db.stations
    modifies db
    ensures StationOutcome(route, cfg, req, faults, newId, old(db.stations), old(db.observations), db.stations, db.observations, r)
    ensures old(db.Valid()) ==> db.Valid()
    ensures old(db.Consistent()) && !(route.DeleteStation? && r.status == 500) ==> db.Consistent()
  {
    match route {
      case ListStations =>
        var reply := StationsController.List(db, req.description, faults.first);
        r := Resolve(reply, cfg.mode);
      case GetStation(id) =>
        var reply := StationsController.Find(db, cfg.validId, id, faults.first, faults.second);
        r := Resolve(reply, cfg.mode);
      case CreateStation =>
        r := StationsController.Create(db, req.body, newId, faults.first.Some?);
      case DeleteStation(id) =>
        r := StationsController.Remove(db, cfg.validId, id, faults.first.Some?, faults.second.Some?, faults.third.Some?);
    }
  }

  /** The observations router's routes. */
  method ObservationRoutes(db: Store, cfg: Config, route: Route, req: Request, faults: Faults, newId: Id) returns (r: Response)
    requires route.ListObservations? || route.GetObservation? || route.CreateObservation? || route.DeleteObservation?
    requires newId !in db.observations
    modifies db
    ensures ObservationOutcome(route, cfg, req, faults, newId, old(db.stations), old(db.observations), db.stations, db.observations, r)
    ensures old(db.Valid()) ==> db.Valid()
    ensures old(db.Consistent()) ==> db.Consistent()
  {
    match route {
      case ListObservations(sid) =>
        r := ObservationsController.List(db, cfg.validId, sid, faults.first.Some?);
      case GetObservation(sid, oid) =>
        r := ObservationsController.Find(db, cfg.validId, sid, oid, faults.first.Some?);
      case CreateObservation(sid) =>
        var reply := ObservationsController.Create(db, cfg.validId, sid, req.body, newId, faults.first, faults.second.Some?);
        r := Resolve(reply, cfg.mode);
      case DeleteObservation(sid, oid) =>
        r := ObservationsController.Remove(db, cfg.validId, sid, oid, faults.first.Some?);
    }
  }

  /**
   * A forwarded delete of a stored station whose store calls all succeed answers 200 with
   * the station and its observations, and leaves neither behind.
   */
  lemma DeleteCascadeOutcome(cfg: Config, req: Request, faults: Faults, newId: Id, id: Id,
                             s0: map<Id, Station>, o0: map<Id, Observation>,
                             s1: map<Id, Station>, o1: map<Id, Observation>, r: Response)
    requires Outcome(DeleteStation(id), cfg, req, faults, newId, s0, o0, s1, o1, r)
    requires cfg.validId(id) && id in s0 && faults == Faults(None, None, None)
    ensures r.status == 200 && s1 == s0 - {id}
    ensures ObservationsOf(o1, id) == {} && o1.Keys == o0.Keys - ObservationsOf(o0, id)
    ensures r.body.JObj? && Keys(r.body.members) == ["_id", "description", "lat", "lon", "observations"]
    ensures |r.body.members[4].value.items| == |ObservationsOf(o0, id)|
  {
    StationsController.CascadedBodies(r.body, id, s0[id], o0);
  }

  /**
   * A create that answered 201, its station lookup having succeeded, stored the body with
   * the path's station id under `newId` and answered its public form.
   */
  lemma CreatedObservationStored(cfg: Config, req: Request, faults: Faults, newId: Id, sid: Id,
                                 s0: map<Id, Station>, o0: map<Id, Observation>,
                                 s1: map<Id, Station>, o1: map<Id, Observation>, r: Response)
    requires Outcome(CreateObservation(sid), cfg, req, faults, newId, s0, o0, s1, o1, r)
    requires faults.first.None? && r.status == 201
    ensures cfg.validId(sid) && sid in s0 && CheckObservation(Set(req.body, "stationId", JStr(sid))).Ok?
    ensures var o := CheckObservation(Set(req.body, "stationId", JStr(sid))).value;
            && o.stationId == sid && s1 == s0 && o1 == o0[newId := o]
            && r == Response(201, ObservationPublic(newId, o))
  {
  }

  /**
   * An observation the create route stored is found afterwards under its station, with the
   * `_id` the create answered. (A store error passed to `next` may carry any status, 201
   * included, so the create's own store lookup is taken to succeed.)
   */
  lemma CreatedObservationFound(cfg: Config, req: Request, faults: Faults, newId: Id, sid: Id,
                                s0: map<Id, Station>, o0: map<Id, Observation>,
                                s1: map<Id, Station>, o1: map<Id, Observation>, r: Response,
                                req2: Request, newId2: Id, s2: map<Id, Station>, o2: map<Id, Observation>, r2: Response)
    requires Outcome(CreateObservation(sid), cfg, req, faults, newId, s0, o0, s1, o1, r)
    requires faults.first.None? && r.status == 201
    requires Outcome(GetObservation(sid, newId), cfg, req2, Faults(None, None, None), newId2, s1, o1, s2, o2, r2)
    requires cfg.validId(newId)
    ensures newId in o1 && o1[newId].stationId == sid
    ensures r2 == Response(200, JObj(ObservationFields(newId, o1[newId])))
    ensures Get(r2.body.members, "_id") == Get(r.body.members, "_id")
  {
    CreatedObservationStored(cfg, req, faults, newId, sid, s0, o0, s1, o1, r);
    var o := CheckObservation(Set(req.body, "stationId", JStr(sid))).value;
    assert newId in o1 && o1[newId] == o;
    assert ObservationOutcome(GetObservation(sid, newId), cfg, req2, Faults(None, None, None), newId2, s1, o1, s2, o2, r2);
    ObservationPublicValues(newId, o);
  }
}
