# Weather-station REST API: a verified model of its request handling

The system is a small REST service for weather stations and their observations, written
with Express and Mongoose. This project models the part that decides what every request
does:

- the station routes: list, get, create, and delete with a cascade over the station's
  observations (`controllers/stations.js`);
- the observation routes, scoped by station (`controllers/observations.js`);
- the two Mongoose schemas with their `getPublic` forms (`models/station.js`,
  `models/observation.js`);
- the HMAC gate in front of the station delete and the error handler (`app.js`);
- the 405 catch-all (`controllers/index.js`), and Express's own answer to OPTIONS on a path
  some route matches.

Layout, one module per source file plus four shared ones:

| file | module | models |
|---|---|---|
| `http.dfy` | `Http` | JSON values, with objects as ordered member lists. `Get`, `Set` and `Delete` stand for JavaScript property access, assignment and `delete`. Also responses, store errors and `Reply` (send a response, or `next(err)`). |
| `text.dfy` | `Text` | `toLowerCase`/`toUpperCase` on ASCII letters; cutting a path into segments |
| `schema.dfy` | `Schema` | the `required`, `min` and `max` field rules |
| `station_model.dfy` | `StationModel` | `models/station.js` |
| `observation_model.dfy` | `ObservationModel` | `models/observation.js` |
| `store.dfy` | `Db` | the document store, as a class `Store` holding two maps, and the queries the handlers issue |
| `stations_controller.dfy` | `StationsController` | `controllers/stations.js`, as methods on a `Store` |
| `observations_controller.dfy` | `ObservationsController` | `controllers/observations.js`, as methods on a `Store` |
| `router.dfy` | `Router` | which handler a method and path reach (`controllers/index.js`, the `router.use`/`router.get` lines) |
| `app.dfy` | `App` | `app.js`: the gate, the error handler, and one request end to end |

The handlers are imperative. They read and change a `Store` object in place, so they are
`method`s with `modifies db`. The response bodies they build are proved against ghost
predicates such as `StationWithObservationBodies`, and lemmas then state what those bodies
contain. Two invariants of the store are carried through every handler:

- `Valid`: every stored document passed its schema.
- `Consistent`: every observation's station exists.

Every handler preserves `Valid`. Every handler preserves `Consistent`, except a station
delete that fails after its first step; the contract of `Remove` says exactly that.

Some things are parameters because their code is not part of this model:

- the object-id check `isValidObjectID` is `validId`;
- the SHA-256 HMAC is `hmac`;
- the environment name is `mode`;
- the id a new document receives is `newId`, any key not yet in use;
- whether each store call fails is a flag, or a `DbError` when the handler passes the error
  to `next`. A failing call changes nothing.

Two behaviours of the code are easy to misread, and the model keeps them as written:

- A station delete deletes the station FIRST, then reads its observations, then deletes
  them (`controllers/stations.js:70-88`). A failure in either later step answers 500 with
  the station already gone and its observations left behind.
- A station POST whose save fails for any reason other than validation still answers 201
  with the public form, and nothing is stored (`controllers/stations.js:55-60`).

## Model

| member | source | states |
|---|---|---|
| Http.Set | controllers/observations.js:53 | `obj[key] = value` makes `key` read `value`, leaves every other key's value alone, and keeps the key order, appending a new key at the end |
| Http.SetAppends | controllers/stations.js:39 | setting a property the object lacks appends exactly one member at the end |
| Http.Delete | controllers/stations.js:77 | `delete obj[key]` removes `key` and leaves every other key's value alone; deleting an absent key changes nothing |
| Http.DeleteLast | controllers/observations.js:84-85 | deleting the property added last gives back the object it was added to |
| Schema.RequiredString | models/station.js:5 | a required String fails exactly when missing, not a string, or empty, and then yields only the `required` error |
| Schema.RequiredNumber | models/station.js:6-7 | a required Number with inclusive bounds fails exactly when missing or out of range; a missing value yields only `required`, and a present one yields the one bound it breaks |
| StationModel.CheckStation | models/station.js:4-8 | a body validates iff its description is a non-empty string, lat is a number in [-90, 90] and lon a number in [-180, 180]; the station then carries the body's values, and the error list otherwise is non-empty and names only schema fields |
| StationModel.DescriptionErrors | models/station.js:5 | the description gives a `required` error iff it is missing or empty |
| StationModel.LatitudeErrors | models/station.js:6 | lat gives `required` iff missing, `min` iff below -90, `max` iff above 90 |
| StationModel.LongitudeErrors | models/station.js:7 | lon gives `required` iff missing, `min` iff below -180, `max` iff above 180 |
| StationModel.CoordinateBounds | models/station.js:6-7 | the range ends are accepted and values just past them are rejected |
| StationModel.StationPublic | models/station.js:10-18 | `getPublic` has exactly the keys description, lat, lon, _id, with the station's own values, and no `__v` |
| StationModel.PublicRoundTrip | models/station.js:4-18 | the public form of a valid station, posted back as a body, validates to the same station |
| StationModel.StationFieldsValues | controllers/stations.js:32-38 | the station's stored fields without `__v` carry its own `_id`, description, lat and lon |
| StationModel.DeleteVersionOfStation | controllers/stations.js:76-77 | deleting `__v` from the stored station leaves exactly its `_id`, description, lat and lon |
| ObservationModel.CheckObservation | models/observation.js:5-12 | a body validates iff temp and windSpeed are numbers, windDir is a non-empty string, hum is in [0, 100], prec is at least 0 and stationId is a non-empty string; the observation then carries the body's values |
| ObservationModel.CheckObservationReadsFields | models/observation.js:5-12 | validation looks at nothing but the six schema fields |
| ObservationModel.HumidityErrors | models/observation.js:9 | hum gives `required` iff missing, `min` iff below 0, `max` iff above 100 |
| ObservationModel.PrecipitationErrors | models/observation.js:10 | prec gives `required` iff missing and `min` iff below 0, and never a `max` error |
| ObservationModel.ObservationRequiredErrors | models/observation.js:6-11 | temp, windSpeed, windDir and stationId each give `required` iff missing (or empty, for the strings) |
| ObservationModel.HumidityAndPrecipitationBounds | models/observation.js:9-10 | hum 100.0 and prec 0.0 pass; hum 100.1 and prec -0.01 fail |
| ObservationModel.ObservationFields | controllers/observations.js:14 | the `-__v -stationId` projection has exactly `_id` and the five measurements, and no `stationId` or `__v` |
| ObservationModel.ObservationFieldsValues | controllers/observations.js:14 | each field of that projection carries the observation's own value, as every observation response shows it |
| ObservationModel.DeleteVersionAndStationId | controllers/observations.js:83-85 | deleting `__v` and then `stationId` from the stored observation leaves exactly that projection |
| ObservationModel.ObservationPublic | models/observation.js:14-24 | `getPublic` has exactly the keys temp, windSpeed, windDir, hum, prec, _id, and never `stationId` |
| ObservationModel.ObservationPublicValues | models/observation.js:14-24 | each public field carries the observation's own value |
| ObservationModel.PublicRoundTrip | models/observation.js:5-24 | the public form, with the station id put back as the create handler does, validates to the same observation |
| Db.MatchingStations | controllers/stations.js:13-22 | reference definition of the `description` filter, against which `SelectStations` is proved: the stations with exactly that description, and every station when absent (its membership clause restates the definition) |
| Db.ObservationsOf | controllers/stations.js:40 | reference definition of the query `{stationId: id}`, against which `SelectObservationsOf` is proved: exactly the observations of that station (its membership clause restates the definition) |
| Db.WithoutObservationsOf | controllers/stations.js:86 | `deleteMany({stationId})` keeps exactly the observations of other stations, unchanged |
| Db.IdListContents | controllers/stations.js:40-45 | the `_id` projection of a query result lists each selected id once and nothing else |
| Db.ObservationBodiesContents | controllers/stations.js:79-84 | the projected bodies of a query result are those of exactly the selected observations, one each |
| Db.Store.FindStation | controllers/stations.js:32 | `findById` finds a station iff its id is stored, and returns that station |
| Db.Store.FindObservation | controllers/observations.js:30 | the compound-key `findOne` finds an observation iff it exists and belongs to the given station |
| Db.Store.SelectStations | controllers/stations.js:14 | `find` returns every matching station's id exactly once |
| Db.Store.SelectObservationsOf | controllers/stations.js:40 | `find({stationId})` returns the id of every observation of the station exactly once |
| Db.Store.InsertStation | controllers/stations.js:55 | `save` adds the station under its new id; the store stays valid, and consistent |
| Db.Store.InsertObservation | controllers/observations.js:56 | `save` adds the observation; the store stays consistent when the observation's station exists |
| Db.Store.FindOneAndDeleteStation | controllers/stations.js:70 | removes the station and returns it if it was there; afterwards only that station's observations may be orphaned |
| Db.Store.FindOneAndDeleteObservation | controllers/observations.js:77 | removes the observation only when it belongs to the given station, and returns it |
| Db.Store.DeleteObservationsOf | controllers/stations.js:86 | removes exactly the station's observations, restoring consistency after its station was removed |
| StationsController.Summary | controllers/stations.js:14 | a list entry has exactly `_id` and `description`, with the station's values |
| StationsController.List | controllers/stations.js:12-24 | a store error goes to `next`; otherwise 200 with the summary of every selected station once |
| StationsController.SummariesContents | controllers/stations.js:14-16 | the summaries of a query result are those of exactly the selected stations, one each |
| StationsController.ListedStations | controllers/stations.js:12-24 | the list holds the summary of each matching station (every station without a filter) and nothing else, as many entries as stations; each entry has exactly `_id` and `description`, and under a filter every entry carries that description |
| StationsController.Find | controllers/stations.js:27-50 | a malformed id answers 404 "Station not found!" before any store call; a lookup error goes to `next`; an absent id answers 404 "Station not found"; an error on the observations answers 500; otherwise 200 with the station and its observation ids |
| StationsController.StationThenObservations | controllers/stations.js:38-46 | the station's fields with `observations` appended have five keys in that order and carry the station's values |
| StationsController.JoinedIds | controllers/stations.js:38-47 | a successful get answers exactly `_id`, description, lat, lon, observations, with the station's values, and the observation list holds one id per observation of that station and no other |
| StationsController.Create | controllers/stations.js:53-62 | an invalid body answers 400 "Incorrect format of request body" and stores nothing; a valid one answers 201 with the public form, and is stored unless the save failed |
| StationsController.Remove | controllers/stations.js:65-92 | malformed id, lookup error or absent station answer 404 and change nothing; otherwise the station is removed first, a failed read or `deleteMany` then answers its 500, and success removes exactly the station's observations and answers the station with their bodies |
| StationsController.CascadeBody | controllers/stations.js:76-84 | the delete response is the stored station without `__v`, with the bodies of exactly its observations, read before they are deleted |
| StationsController.CascadedBodies | controllers/stations.js:76-88 | a successful delete answers exactly five fields, with the deleted station's values, and its observation list holds the body of each removed observation once and nothing else |
| ObservationsController.List | controllers/observations.js:9-18 | a malformed station id answers 404; a store error answers 500; otherwise 200 with the body of every observation of that station once |
| ObservationsController.ListedObservations | controllers/observations.js:14-17 | the list holds the `-__v -stationId` body of each observation of the station and nothing else, as many entries as observations, so none shows `stationId` |
| ObservationsController.UnknownStationListsNothing | controllers/observations.js:14-17 | in a consistent store a well-formed but unknown station id lists nothing |
| ObservationsController.Find | controllers/observations.js:21-38 | station id checked first, observation id second, each with its own 404; a store error answers 500; an observation of another station answers 404; otherwise 200 with the projected body |
| ObservationsController.Create | controllers/observations.js:41-65 | malformed or absent station answers 404 and stores nothing; the body's `stationId` is replaced by the path's; a failed validation or save answers 400 "Bad request." and stores nothing; success stores the observation under the path's station and answers 201 with its public form |
| ObservationsController.ClientStationIdIgnored | controllers/observations.js:52-54 | whatever `stationId` the client sends, the validated observation is the same |
| ObservationsController.Remove | controllers/observations.js:68-89 | the same id checks as get; success removes exactly the matched observation of that station and answers it without `__v` and `stationId`; every other outcome changes nothing |
| Router.ObservationsRoute | controllers/observations.js:9-68 | on its root the observations router sends GET/HEAD to the list and POST to the create, on one id GET/HEAD to the get and DELETE to the delete, both scoped by the path's station id; OPTIONS on either gets the router's answer with that path's methods, and everything else is not routed |
| Router.StationsRoute | controllers/stations.js:9-65 | the stations router answers GET/HEAD and POST on its root and GET/HEAD and DELETE on one non-empty id, and hands `/<sid>/observations...` to the observations router with that station id |
| Router.RouteOf | controllers/index.js:5-9 | only paths under `/api/v1/stations` reach a handler |
| Router.OtherMethodsNotSupported | controllers/index.js:7-9 | every method other than GET, HEAD, POST, DELETE and OPTIONS is answered by the catch-all, on any path |
| Router.OptionsListsRoutedMethods | controllers/stations.js:9-65 | Express answers OPTIONS itself exactly on the paths some route matches, with an `Allow` list naming exactly the methods that reach a handler there; on other paths OPTIONS falls to the catch-all |
| Router.StationPathRoutes | controllers/stations.js:27 | `/api/v1/stations/<id>`, in any letter case and with or without a trailing slash, reaches get for GET and HEAD, delete for DELETE, the OPTIONS answer "GET,HEAD,DELETE", and the catch-all otherwise |
| Router.ObservationCollectionRoutes | controllers/stations.js:9 | `/api/v1/stations/<sid>/observations`, in any letter case, reaches the observation list for GET and HEAD and the create for POST, with the path's station id |
| Router.ObservationPathRoutes | controllers/stations.js:9 | `/api/v1/stations/<sid>/observations/<oid>` reaches the observation get and delete with both ids |
| Router.MountPointRoutes | controllers/stations.js:12 | `/api/v1/stations` reaches the list for GET and HEAD, create for POST, the OPTIONS answer "GET,HEAD,POST", and the catch-all (so PUT gets 405) otherwise |
| App.Gate | app.js:26-37 | a request the gate applies to goes on iff its `authorization` equals the HMAC of the upper-cased method, a space and the lower-cased path; otherwise 401 `{"message":"Unauthorised"}` |
| App.GateGuardsStationDelete | app.js:26 | the gate applies to exactly the requests that reach the station delete handler |
| App.MissingAndWrongTokenAlike | app.js:28-36 | a missing header and a wrong one get the same 401 |
| App.TokenBindsPath | app.js:27-29 | with an injective HMAC, a token for one path does not open a path that differs from it other than in letter case |
| App.TokenIgnoresCase | app.js:27 | since the gate lower-cases the path, a token opens the lower- and upper-case spellings of its path alike |
| App.SignedDeleteForwarded | app.js:27-30 | `hmac("mysecret", "DELETE /api/v1/stations/" + id)` opens the delete of a lower-case id |
| App.ErrorHandler | app.js:43-55 | status is `err.status` when set and non-zero, else 500; the body has exactly `message` and `error`, and `error` is the details only in development, `{}` otherwise |
| App.Resolve | app.js:44-55 | a handler's `next(err)` ends in the error handler; a sent response goes out unchanged |
| App.Handle | app.js:26-40 | a rejected request answers 401 with the store unchanged, even for a malformed id; a forwarded one has the `Outcome` of the route its method and path reach: the handler's response and new store, the router's OPTIONS answer, or 405 with the store unchanged; GET and HEAD never change the store; every request keeps the store valid, and consistent unless a station delete answers 500 |
| App.StationRoutes | controllers/stations.js:12-92 | each station route's response and new store, branch by branch (list, get, create, and the delete cascade), with every `next(err)` ending in the error handler; the store stays valid, and only a failed station delete can break consistency |
| App.ObservationRoutes | controllers/observations.js:9-89 | each observation route's response and new store, branch by branch, scoped by the path's station id; the stations are never touched, and the store stays valid and consistent |
| App.DeleteCascadeOutcome | controllers/stations.js:65-92 | a forwarded delete of a stored station whose store calls succeed answers 200 with five fields and one body per removed observation, and leaves neither the station nor any of its observations |
| App.CreatedObservationStored | controllers/observations.js:41-65 | a create that answered 201 stored the body, with the path's station id, under the new id and answered its public form |
| App.CreatedObservationFound | controllers/observations.js:21-38 | an observation the create stored is then found under its station, with the `_id` the create answered |

## Left out

- MongoDB itself, the connection, body parsing and `app.listen`. The store is two maps;
  a request body is given already parsed as a JSON object.
- Mongoose casting. A field of the wrong JSON type counts as missing, whereas Mongoose would
  cast a numeric string to a Number or a number to a String. Unknown body fields are not
  dropped from the model's view, but validation never reads them.
- The client choosing its own `_id` in a POST body. New documents get `newId`.
- `isValidObjectID`, SHA-256 and ObjectId generation: their code is not part of this model,
  so they are the parameters `validId`, `hmac` and `newId`.
- The query-operator injection case (`?description[$ne]=...`): a query value is a plain
  string or absent.
- A `deleteMany` that removes some observations and then fails. A failing store call
  changes nothing.
- Case mapping outside ASCII, percent-decoding of path parameters, and repeated slashes
  other than one trailing slash.
- A HEAD response carries the GET body here; Express would send the headers only.
- Response headers. Express's OPTIONS answer puts the method list in an `Allow` header and
  also sends it as the text body; the model keeps only the body.
- ObjectId casting of path ids. Mongoose casts a path id to an ObjectId before every query,
  so the letter case of its hex digits does not matter and responses carry the stored
  spelling. The model compares ids as exact strings and answers with the path's spelling:
  `GET /api/v1/stations/5C8A...` for a station stored as `5c8a...` is a 404 here, a 200 in
  the code.
- Floating point: coordinates and measurements are `real`.
- Asynchronous callbacks and concurrent requests: each handler runs as one sequential
  method, keeping the code's order of store calls.
- Logging (`console.log`, `console.error`).
- JSON objects with duplicate keys: reading takes the first member with the key. Parsed
  bodies never have duplicates, so which one JavaScript would keep is not modelled.
