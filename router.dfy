/**
 * The dispatch of a request line to a handler: the stations router mounted at
 * `/api/v1/stations`, the observations router mounted inside it at
 * `/:stationId/observations` ahead of the `/:id` routes, and the catch-all route that
 * answers 405 to everything else. Literal segments match without regard to case, one
 * trailing slash is allowed, and a GET route also answers HEAD. An OPTIONS request on a path
 * some route matches is answered by the router itself with the methods of those routes.
 */
module Router {
  import opened Http
  import opened Text

  datatype Route =
    | ListStations
    | GetStation(id: Id)
    | CreateStation
    | DeleteStation(id: Id)
    | ListObservations(sid: Id)
    | GetObservation(sid: Id, oid: Id)
    | CreateObservation(sid: Id)
    | DeleteObservation(sid: Id, oid: Id)
    | Options(allow: seq<string>)
    | NotSupported

  /** The methods of the routes on a collection path (`router.get('/')`, `router.post('/')`). */
  const CollectionMethods: seq<string> := ["GET", "HEAD", "POST"]

  /** The methods of the routes on one document (`router.get('/:id')`, `router.delete('/:id')`). */
  const DocumentMethods: seq<string> := ["GET", "HEAD", "DELETE"]

  /** The methods a GET route answers. */
  predicate IsGet(verb: string)
  {
    verb == "GET" || verb == "HEAD"
  }

  /** A literal segment of a route pattern matches a request segment regardless of case. */
  predicate SegmentIs(segment: string, literal: string)
  {
    Lower(segment) == literal
  }

  /** The routes of the observations router, given the path after `/:stationId/observations`. */
  function ObservationsRoute(verb: string, sid: Id, rest: seq<string>): (route: Route)
    requires sid != ""
    ensures rest == [] ==>
              route == if IsGet(verb) then ListObservations(sid)
                       else if verb == "POST" then CreateObservation(sid)
                       else if verb == "OPTIONS" then Options(CollectionMethods)
                       else NotSupported
    ensures |rest| == 1 && rest[0] != "" ==>
              route == if IsGet(verb) then GetObservation(sid, rest[0])
                       else if verb == "DELETE" then DeleteObservation(sid, rest[0])
                       else if verb == "OPTIONS" then Options(DocumentMethods)
                       else NotSupported
    ensures rest != [] && (|rest| != 1 || rest[0] == "") ==> route == NotSupported
  {
    if rest == [] then
      if IsGet(verb) then ListObservations(sid)
      else if verb == "POST" then CreateObservation(sid)
      else if verb == "OPTIONS" then Options(CollectionMethods)
      else NotSupported
    else if |rest| == 1 && rest[0] != "" then
      if IsGet(verb) then GetObservation(sid, rest[0])
      else if verb == "DELETE" then DeleteObservation(sid, rest[0])
      else if verb == "OPTIONS" then Options(DocumentMethods)
      else NotSupported
    else NotSupported
  }

  /** The routes of the stations router, given the path after `/api/v1/stations`. */
  function StationsRoute(verb: string, rest: seq<string>): (route: Route)
    ensures route.ListStations? || route.CreateStation? ==> rest == []
    ensures route.GetStation? || route.DeleteStation? ==> rest == [route.id] && route.id != ""
    ensures route.ListObservations? || route.CreateObservation? ==>
              |rest| == 2 && rest[0] == route.sid != "" && SegmentIs(rest[1], "observations")
    ensures route.GetObservation? || route.DeleteObservation? ==>
              |rest| == 3 && rest[0] == route.sid != "" && SegmentIs(rest[1], "observations") && rest[2] == route.oid != ""
  {
    if |rest| >= 2 && rest[0] != "" && SegmentIs(rest[1], "observations") then
      ObservationsRoute(verb, rest[0], rest[2..])
    else if rest == [] then
      if IsGet(verb) then ListStations
      else if verb == "POST" then CreateStation
      else if verb == "OPTIONS" then Options(CollectionMethods)
      else NotSupported
    else if |rest| == 1 && rest[0] != "" then
      if IsGet(verb) then GetStation(rest[0])
      else if verb == "DELETE" then DeleteStation(rest[0])
      else if verb == "OPTIONS" then Options(DocumentMethods)
      else NotSupported
    else NotSupported
  }

  /** Whether the segments start with the mount point `api/v1/stations`. */
  predicate UnderStations(segs: seq<string>)
  {
    |segs| >= 3 && SegmentIs(segs[0], "api") && SegmentIs(segs[1], "v1") && SegmentIs(segs[2], "stations")
  }

  /** The handler a request line reaches; NotSupported is the 405 catch-all. */
  function RouteOf(verb: string, path: string): (route: Route)
    ensures route != NotSupported ==> UnderStations(Segments(path))
  {
    var segs := Segments(path);
    if UnderStations(segs) then StationsRoute(verb, segs[3..]) else NotSupported
  }

  /** The catch-all's answer. */
  function NotSupportedResponse(): Response
  {
    Response(405, Message("Operation not supported!"))
  }

  /** `methods.join(",")`, the text of the `Allow` header. */
  function AllowText(methods: seq<string>): string
  {
    if methods == [] then "" else if |methods| == 1 then methods[0] else methods[0] + "," + AllowText(methods[1..])
  }

  /** The router's own answer to OPTIONS: 200, with the allowed methods as the `Allow` header and as the text body. */
  function OptionsResponse(methods: seq<string>): Response
  {
    Response(200, JStr(AllowText(methods)))
  }

  /** The methods a route table can answer besides OPTIONS. */
  const RoutedMethods: seq<string> := ["GET", "HEAD", "POST", "DELETE"]

  /** Only GET, HEAD, POST and DELETE reach a handler, and OPTIONS the router's own answer; every other verb is answered 405. */
  lemma OtherMethodsNotSupported(verb: string, path: string)
    requires verb !in RoutedMethods && verb != "OPTIONS"
    ensures RouteOf(verb, path) == NotSupported
  {
    var segs := Segments(path);
    if UnderStations(segs) {
      var rest := segs[3..];
      if |rest| >= 2 && rest[0] != "" && SegmentIs(rest[1], "observations") {
        assert ObservationsRoute(verb, rest[0], rest[2..]) == NotSupported;
      }
    }
  }

  /**
   * OPTIONS is answered by the router exactly on the paths some route matches, and the
   * `Allow` list names exactly the methods that reach a handler on that path; elsewhere it
   * falls to the catch-all.
   */
  lemma OptionsListsRoutedMethods(path: string)
    ensures RouteOf("OPTIONS", path).Options? || RouteOf("OPTIONS", path) == NotSupported
    ensures RouteOf("OPTIONS", path).Options? <==> RouteOf("GET", path) != NotSupported
    ensures RouteOf("OPTIONS", path).Options? ==>
              forall verb :: verb in RoutedMethods ==> (verb in RouteOf("OPTIONS", path).allow <==> RouteOf(verb, path) != NotSupported)
  {
    var segs := Segments(path);
    if UnderStations(segs) {
      var rest := segs[3..];
      if |rest| >= 2 && rest[0] != "" && SegmentIs(rest[1], "observations") {
        var sid, tail := rest[0], rest[2..];
        assert forall verb :: RouteOf(verb, path) == ObservationsRoute(verb, sid, tail);
      }
    }
  }

  /**
   * `/api/v1/stations/<id>` in any letter case, with or without a trailing slash, reaches
   * the get handler for GET and HEAD, the delete handler for DELETE, the router's OPTIONS
   * answer, and 405 otherwise.
   */
  lemma StationPathRoutes(verb: string, a: string, b: string, c: string, id: Id, trailing: bool)
    requires '/' !in a && '/' !in b && '/' !in c && '/' !in id && id != ""
    requires SegmentIs(a, "api") && SegmentIs(b, "v1") && SegmentIs(c, "stations")
    ensures var parts := [a, b, c, id];
            RouteOf(verb, "/" + Join(if trailing then parts + [""] else parts)) ==
              if IsGet(verb) then GetStation(id)
              else if verb == "DELETE" then DeleteStation(id)
              else if verb == "OPTIONS" then Options(DocumentMethods)
              else NotSupported
  {
    SegmentsOfPath([a, b, c, id], trailing);
  }

  /**
   * `/api/v1/stations/<sid>/observations` reaches the observation list for GET and HEAD and
   * the observation create for POST, scoped by the path's station id.
   */
  lemma ObservationCollectionRoutes(verb: string, a: string, b: string, c: string, sid: Id, d: string, trailing: bool)
    requires '/' !in a && '/' !in b && '/' !in c && '/' !in sid && '/' !in d
    requires sid != "" && d != ""
    requires SegmentIs(a, "api") && SegmentIs(b, "v1") && SegmentIs(c, "stations") && SegmentIs(d, "observations")
    ensures var parts := [a, b, c, sid, d];
            RouteOf(verb, "/" + Join(if trailing then parts + [""] else parts)) ==
              if IsGet(verb) then ListObservations(sid)
              else if verb == "POST" then CreateObservation(sid)
              else if verb == "OPTIONS" then Options(CollectionMethods)
              else NotSupported
  {
    SegmentsOfPath([a, b, c, sid, d], trailing);
    assert [a, b, c, sid, d][3..][2..] == [];
  }

  /**
   * `/api/v1/stations/<sid>/observations/<oid>` reaches the observation handlers, scoped by
   * both ids, whatever the letter case of the literal segments.
   */
  lemma ObservationPathRoutes(verb: string, a: string, b: string, c: string, sid: Id, d: string, oid: Id, trailing: bool)
    requires '/' !in a && '/' !in b && '/' !in c && '/' !in sid && '/' !in d && '/' !in oid
    requires sid != "" && oid != ""
    requires SegmentIs(a, "api") && SegmentIs(b, "v1") && SegmentIs(c, "stations") && SegmentIs(d, "observations")
    ensures var parts := [a, b, c, sid, d, oid];
            RouteOf(verb, "/" + Join(if trailing then parts + [""] else parts)) ==
              if IsGet(verb) then GetObservation(sid, oid)
              else if verb == "DELETE" then DeleteObservation(sid, oid)
              else if verb == "OPTIONS" then Options(DocumentMethods)
              else NotSupported
  {
    SegmentsOfPath([a, b, c, sid, d, oid], trailing);
    assert [a, b, c, sid, d, oid][3..][2..] == [oid];
  }

  /** No route but the station list and the station creation answers the bare mount point. */
  lemma MountPointRoutes(verb: string, path: string)
    requires Segments(path) == ["api", "v1", "stations"]
    ensures RouteOf(verb, path) ==
              if IsGet(verb) then ListStations
              else if verb == "POST" then CreateStation
              else if verb == "OPTIONS" then Options(CollectionMethods)
              else NotSupported
  {
    assert Lower("api") == "api" && Lower("v1") == "v1" && Lower("stations") == "stations";
    assert Segments(path)[3..] == [];
  }
}
