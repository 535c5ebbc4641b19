/**
 * An in-memory stand-in for the training table: records keyed by id, the order in
 * which they were inserted, and an identity counter that hands out ids.
 */
module TrainingStore {

  import opened Wrappers
  import opened Streams
  import opened Trainings

  class TrainingRepository {
    var rows: map<int, Training>
    var order: seq<int>
    var nextId: int

    /** Every stored record knows its own key, keys are listed once each, and the counter is past them all. */
    ghost predicate Valid()
      reads this, rows.Values
    {
      && (forall k :: k in rows <==> k in order)
      && (forall i :: 0 <= i < |order| ==> order[i] in rows)
      && Distinct(order)
      && (forall k :: k in rows ==> rows[k].id == Some(k) && k < nextId)
    }

    constructor ()
      ensures Valid() && rows == map[] && order == []
    {
      rows, order, nextId := map[], [], 1;
    }

    function FindById(id: int): (r: Option<Training>)
      reads this
    {
      if id in rows then Some(rows[id]) else None
    }

    function ExistsById(id: int): bool
      reads this
    {
      id in rows
    }

    /** The stored entities in insertion order. */
    function FindAll(): (r: seq<Training>)
      requires Valid()
      reads this, rows.Values
      ensures |r| == |order|
      ensures forall i :: 0 <= i < |order| ==> r[i] == rows[order[i]]
    {
      var rs, os := rows, order;
      seq(|os|, i requires 0 <= i < |os| && os[i] in rs => rs[os[i]])
    }

    /**
     * Persists `t`. A new entity (no id) gets the next identity value, in place,
     * and is appended; an entity already stored under its id is left as it is.
     */
    method Save(t: Training) returns (saved: Training)
      requires Valid()
      requires t.id.None? || (t.id.value in rows && rows[t.id.value] == t)
      modifies this, t
      ensures Valid()
      ensures saved == t
      ensures t.user == old(t.user) && t.startTime == old(t.startTime) && t.endTime == old(t.endTime)
      ensures t.activityType == old(t.activityType)
      ensures t.distance == old(t.distance) && t.averageSpeed == old(t.averageSpeed)
      ensures old(t.id).None? ==>
        && t.id == Some(old(nextId))
        && old(nextId) !in old(rows)
        && rows == old(rows)[old(nextId) := t]
        && order == old(order) + [old(nextId)]
      ensures old(t.id).Some? ==> t.id == old(t.id) && rows == old(rows) && order == old(order)
    {
      if t.id.None? {
        var k := nextId;
        t.id := Some(k);
        rows := rows[k := t];
        order := order + [k];
        nextId := nextId + 1;
        assert Distinct(order) by {
          assert k !in old(order);
        }
      }
      saved := t;
    }

    /** Removes the record stored under `id`, if any. */
    method DeleteById(id: int)
      requires Valid()
      modifies this
      ensures Valid()
      ensures rows == old(rows) - {id}
      ensures order == Without(old(order), id)
    {
      WithoutDistinct(order, id);
      rows := rows - {id};
      order := Without(order, id);
    }
  }
}
