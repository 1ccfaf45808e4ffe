/**
 * The document store the handlers talk to, reduced to two in-memory collections and
 * the queries the handlers issue against them.
 */
module Db {
  import opened Http
  import opened StationModel
  import opened ObservationModel

  /** The stations a `description` filter selects: all of them when there is no filter. */
  function MatchingStations(stations: map<Id, Station>, description: Option<string>): (ids: set<Id>)
    ensures ids <= stations.Keys
    ensures description.None? ==> ids == stations.Keys
    ensures forall id :: id in ids <==> id in stations && (description.Some? ==> stations[id].description == description.value)
  {
    set id | id in stations && (description.None? || stations[id].description == description.value)
  }

  /** The observations whose `stationId` is `sid`. */
  function ObservationsOf(observations: map<Id, Observation>, sid: Id): (ids: set<Id>)
    ensures ids <= observations.Keys
    ensures forall id :: id in ids <==> id in observations && observations[id].stationId == sid
  {
    set id | id in observations && observations[id].stationId == sid
  }

  /** The observations after `deleteMany({stationId: sid})`. */
  function WithoutObservationsOf(observations: map<Id, Observation>, sid: Id): (rest: map<Id, Observation>)
    ensures rest.Keys == observations.Keys - ObservationsOf(observations, sid)
    ensures forall id :: id in rest ==> rest[id] == observations[id] && rest[id].stationId != sid
  {
    map id | id in observations && observations[id].stationId != sid :: observations[id]
  }

  /** The `_id` projection of a query result: the ids as JSON strings, in the same order. */
  function IdList(order: seq<Id>): (items: seq<Json>)
    ensures |items| == |order|
    ensures forall i :: 0 <= i < |order| ==> items[i] == JStr(order[i])
  {
    seq(|order|, i requires 0 <= i < |order| => JStr(order[i]))
  }

  /** The `-__v -stationId` projection of a query result over `observations`, in the same order. */
  function ObservationBodies(order: seq<Id>, observations: map<Id, Observation>): (items: seq<Json>)
    requires forall id :: id in order ==> id in observations
    ensures |items| == |order|
    ensures forall i :: 0 <= i < |order| ==> items[i] == JObj(ObservationFields(order[i], observations[order[i]]))
  {
    seq(|order|, i requires 0 <= i < |order| => JObj(ObservationFields(order[i], observations[order[i]])))
  }

  /** The `_id` projection of an enumeration names each id of the set once, and no other string. */
  lemma {:induction false} IdListContents(order: seq<Id>, ids: set<Id>)
    requires Enumerates(order, ids)
    ensures |IdList(order)| == |ids|
    ensures forall k :: JStr(k) in IdList(order) <==> k in ids
  {
    EnumerationSize(order, ids);
    var items := IdList(order);
    forall k ensures JStr(k) in items <==> k in order {
      if JStr(k) in items {
        var j :| 0 <= j < |items| && items[j] == JStr(k);
        assert order[j] == k;
      }
      if k in order {
        var j :| 0 <= j < |order| && order[j] == k;
        assert items[j] == JStr(k);
      }
    }
  }

  /** The body projection of an enumeration holds the body of each member of the set, and nothing else. */
  lemma {:induction false} ObservationBodiesContents(order: seq<Id>, observations: map<Id, Observation>, ids: set<Id>)
    requires Enumerates(order, ids) && ids <= observations.Keys
    ensures |ObservationBodies(order, observations)| == |ids|
    ensures forall k :: k in ids ==> JObj(ObservationFields(k, observations[k])) in ObservationBodies(order, observations)
    ensures forall x :: x in ObservationBodies(order, observations) ==>
              exists k :: k in ids && x == JObj(ObservationFields(k, observations[k]))
  {
    EnumerationSize(order, ids);
    var items := ObservationBodies(order, observations);
    forall k | k in ids
      ensures JObj(ObservationFields(k, observations[k])) in items
    {
      var j :| 0 <= j < |order| && order[j] == k;
      assert items[j] == JObj(ObservationFields(k, observations[k]));
    }
    forall x | x in items
      ensures exists k :: k in ids && x == JObj(ObservationFields(k, observations[k]))
    {
      var j :| 0 <= j < |items| && items[j] == x;
      assert order[j] in ids;
    }
  }

  class Store {
    var stations: map<Id, Station>
    var observations: map<Id, Observation>

    /** Every stored document passed its schema's validation. */
    ghost predicate Valid()
      reads this
    {
      && (forall id :: id in stations ==> ValidStation(stations[id]))
      && (forall id :: id in observations ==> ValidObservation(observations[id]))
    }

    /** Every observation belongs to a station that exists. */
    ghost predicate Consistent()
      reads this
    {
      forall id :: id in observations ==> observations[id].stationId in stations
    }

    /** Every observation belongs to a station that exists, save possibly those of `sid`. */
    ghost predicate ConsistentExcept(sid: Id)
      reads this
    {
      forall id :: id in observations && observations[id].stationId != sid ==> observations[id].stationId in stations
    }

    constructor ()
      ensures stations == map[] && observations == map[]
      ensures Valid() && Consistent()
    {
      stations := map[];
      observations := map[];
    }

    /** `Station.findById(id)`. */
    method FindStation(id: Id) returns (found: Option<Station>)
      ensures found.Some? <==> id in stations
      ensures found.Some? ==> found.value == stations[id]
    {
      found := if id in stations then Some(stations[id]) else None;
    }

    /** `Observation.findOne({stationId: sid, _id: oid})`: the compound-key lookup. */
    method FindObservation(sid: Id, oid: Id) returns (found: Option<Observation>)
      ensures found.Some? <==> oid in observations && observations[oid].stationId == sid
      ensures found.Some? ==> found.value == observations[oid]
    {
      found := if oid in observations && observations[oid].stationId == sid then Some(observations[oid]) else None;
    }

    /** `Station.find(filter)`: the ids of the matching stations, each once, in no promised order. */
    method SelectStations(description: Option<string>) returns (ids: seq<Id>)
      ensures Enumerates(ids, MatchingStations(stations, description))
    {
      ids := [];
      var rest := stations.Keys;
      while rest != {}
        invariant rest <= stations.Keys
        invariant Distinct(ids)
        invariant forall id :: id in ids ==> id !in rest
        invariant forall id :: id in ids <==> id in MatchingStations(stations, description) && id !in rest
        decreases rest
      {
        var id :| id in rest;
        if description.None? || stations[id].description == description.value {
          ids := ids + [id];
        }
        rest := rest - {id};
      }
    }

    /** `Observation.find({stationId: sid})`: the ids of that station's observations, each once. */
    method SelectObservationsOf(sid: Id) returns (ids: seq<Id>)
      ensures Enumerates(ids, ObservationsOf(observations, sid))
    {
      ids := [];
      var rest := observations.Keys;
      while rest != {}
        invariant rest <= observations.Keys
        invariant Distinct(ids)
        invariant forall id :: id in ids ==> id !in rest
        invariant forall id :: id in ids <==> id in ObservationsOf(observations, sid) && id !in rest
        decreases rest
      {
        var id :| id in rest;
        if observations[id].stationId == sid {
          ids := ids + [id];
        }
        rest := rest - {id};
      }
    }

    /** `station.save()` of a new document. */
    method InsertStation(id: Id, s: Station)
      requires id !in stations
      modifies this
      ensures stations == old(stations)[id := s] && observations == old(observations)
      ensures old(Valid()) && ValidStation(s) ==> Valid()
      ensures old(Consistent()) ==> Consistent()
    {
      stations := stations[id := s];
    }

    /** `obs.save()` of a new document. */
    method InsertObservation(id: Id, o: Observation)
      requires id !in observations
      modifies this
      ensures observations == old(observations)[id := o] && stations == old(stations)
      ensures old(Valid()) && ValidObservation(o) ==> Valid()
      ensures old(Consistent()) && o.stationId in stations ==> Consistent()
    {
      observations := observations[id := o];
    }

    /** `Station.findOneAndDelete({_id: id})`: removes the station and returns it, if it was there. */
    method FindOneAndDeleteStation(id: Id) returns (found: Option<Station>)
      modifies this
      ensures found == if id in old(stations) then Some(old(stations)[id]) else None
      ensures stations == old(stations) - {id} && observations == old(observations)
      ensures old(Valid()) ==> Valid()
      ensures old(Consistent()) ==> ConsistentExcept(id)
    {
      found := if id in stations then Some(stations[id]) else None;
      stations := stations - {id};
    }

    /** `Observation.findOneAndDelete({stationId: sid, _id: oid})`: the compound-key delete. */
    method FindOneAndDeleteObservation(sid: Id, oid: Id) returns (found: Option<Observation>)
      modifies this
      ensures found.Some? <==> oid in old(observations) && old(observations)[oid].stationId == sid
      ensures found.Some? ==> found.value == old(observations)[oid] && observations == old(observations) - {oid}
      ensures found.None? ==> observations == old(observations)
      ensures stations == old(stations)
      ensures old(Valid()) ==> Valid()
      ensures old(Consistent()) ==> Consistent()
    {
      if oid in observations && observations[oid].stationId == sid {
        found := Some(observations[oid]);
        observations := observations - {oid};
      } else {
        found := None;
      }
    }

    /** `Observation.deleteMany({stationId: sid})`. */
    method DeleteObservationsOf(sid: Id)
      modifies this
      ensures observations == WithoutObservationsOf(old(observations), sid)
      ensures stations == old(stations)
      ensures old(Valid()) ==> Valid()
      ensures old(ConsistentExcept(sid)) ==> Consistent()
    {
      observations := WithoutObservationsOf(observations, sid);
    }
  }
}
